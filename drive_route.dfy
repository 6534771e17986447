/** The Drive search route (`GET /api/google-drive`) and its download-URL
    action (`POST /api/google-drive`). The route reads its parameters from the
    request URL, builds a Google Drive API v3 query, issues one request to the
    Drive file listing and turns the reply into a JSON response. */
module DriveRoute {

  import opened Base

  // ---------------------------------------------------------------------------
  // Data

  /** A file record as the Drive API returns it and the route passes it on. */
  datatype DriveFile = DriveFile(
    id: string,
    name: string,
    mimeType: string,
    modifiedTime: string,
    webViewLink: Option<string>,
    webContentLink: Option<string>,
    size: Option<string>,
    parents: Option<seq<string>>)

  /** The request the route sends to the Drive file listing: the query
      expression (before percent-encoding), the requested fields and the
      `Authorization` header. */
  datatype DriveRequest = DriveRequest(query: string, fields: string, authorization: string)

  /** What the Drive listing answers: an HTTP status with its status text, the
      body as text and its `files` list; or an exception thrown while fetching
      or reading the body (with its message when it is an `Error`). */
  datatype Upstream =
    | Answered(status: int, statusText: string, bodyText: string, files: Option<seq<DriveFile>>)
    | Threw(message: Option<string>)

  /** The JSON body of a GET response: the file list, or an error object. The
      `requiresAuth` field is present (and true) exactly when `requiresAuth`
      holds here; `upstreamStatus` is the `status` field, when present. */
  datatype SearchBody =
    | FileList(files: seq<DriveFile>)
    | SearchFailure(error: string, debug: string, requiresAuth: bool, upstreamStatus: Option<int>)

  type SearchResponse = Response<SearchBody>

  /** URL query parameters in order, already decoded. */
  type Params = seq<(string, string)>

  // ---------------------------------------------------------------------------
  // Constants

  const AuthRequiredMessage: string := "需要 Google 授權。請先完成 OAuth 驗證流程。"
  const MissingTokenDebug: string := "Missing access_token"
  const AuthExpiredMessage: string := "Google 授權已過期，請重新登入。"
  const ConnectionFailedMessage: string := "連接 Google Drive 時發生錯誤"
  const UnknownError: string := "Unknown error"
  const PdfOnly: string := "mimeType='application/pdf'"
  const FileFields: string := "files(id,name,mimeType,modifiedTime,webViewLink,webContentLink,size,parents)"
  const InvalidActionMessage: string := "Invalid action"
  const RequestFailedMessage: string := "Failed to process request"
  const DownloadPrefix: string := "https://drive.google.com/uc?id="
  const DownloadSuffix: string := "&export=download"

  /** The error text for a non-OK Drive reply other than 401. */
  function ApiErrorMessage(status: int, statusText: string): string {
    "Google Drive API 錯誤: " + IntToString(status) + " - " + statusText
  }

  // ---------------------------------------------------------------------------
  // Parameters

  /** `URLSearchParams.get`: the value of the first parameter with that name. */
  function Lookup(params: Params, name: string): (v: Option<string>)
    ensures v.None? <==> forall i :: 0 <= i < |params| ==> params[i].0 != name
    ensures v.Some? ==> exists i :: 0 <= i < |params| && params[i] == (name, v.value)
  {
    if params == [] then None
    else if params[0].0 == name then Some(params[0].1)
    else
      var v := Lookup(params[1..], name);
      assert forall i :: 1 <= i < |params| ==> params[i] == params[1..][i - 1];
      v
  }

  /** Looking up in two lists of parameters one after the other. */
  lemma {:induction false} LookupAppend(a: Params, b: Params, name: string)
    ensures Lookup(a + b, name) == if Lookup(a, name).Some? then Lookup(a, name) else Lookup(b, name)
  {
    if a != [] {
      assert (a + b)[1..] == a[1..] + b;
      LookupAppend(a[1..], b, name);
    } else {
      assert a + b == b;
    }
  }

  /** A parameter's value, with a missing one read as the empty string (the
      route only asks whether the value is truthy). */
  function Param(params: Params, name: string): string {
    Lookup(params, name).GetOr("")
  }

  // ---------------------------------------------------------------------------
  // The query expression

  /** The predicates joined by " and ". */
  function Conjunction(preds: seq<string>): string
    requires |preds| >= 1
  {
    if |preds| == 1 then preds[0] else preds[0] + " and " + Conjunction(preds[1..])
  }

  /** "name contains '<value>'", the value inserted without escaping. */
  function NameContains(value: string): string {
    "name contains '" + value + "'"
  }

  /** One name-contains predicate per non-empty value, in the given order. */
  function NameFilters(values: seq<string>): (preds: seq<string>)
    ensures |preds| <= |values|
  {
    if values == [] then []
    else if values[0] == "" then NameFilters(values[1..])
    else [NameContains(values[0])] + NameFilters(values[1..])
  }

  /** The name filter for one value: none for the empty value. */
  function FilterFor(value: string): seq<string> {
    if value == "" then [] else [NameContains(value)]
  }

  /** The filters of the three fields, field by field. */
  lemma NameFiltersOfThree(query: string, key: string, artist: string)
    ensures NameFilters([query, key, artist]) == FilterFor(query) + FilterFor(key) + FilterFor(artist)
  {
    assert NameFilters([artist]) == FilterFor(artist) by {
      assert [artist][1..] == [];
    }
    assert NameFilters([key, artist]) == FilterFor(key) + FilterFor(artist) by {
      assert [key, artist][1..] == [artist];
    }
    assert [query, key, artist][1..] == [key, artist];
  }

  /** The query for the free text, key and artist: PDFs only, conjoined with a
      name filter for each non-empty field, free text first, then key, then
      artist. */
  function SearchQuery(query: string, key: string, artist: string): (q: string)
    ensures PdfOnly <= q
    ensures query == "" && key == "" && artist == "" ==> q == PdfOnly
  {
    NameFiltersOfThree(query, key, artist);
    Conjunction([PdfOnly] + NameFilters([query, key, artist]))
  }

  /** Appending one predicate appends " and " and the predicate. */
  lemma {:induction false} ConjunctionSnoc(preds: seq<string>, p: string)
    requires |preds| >= 1
    ensures Conjunction(preds + [p]) == Conjunction(preds) + " and " + p
  {
    if |preds| > 1 {
      assert (preds + [p])[1..] == preds[1..] + [p];
      ConjunctionSnoc(preds[1..], p);
    }
  }

  /** The query built step by step: start from the PDF restriction and append
      a name filter for each non-empty field in turn. */
  method BuildSearchQuery(query: string, key: string, artist: string) returns (searchQuery: string)
    ensures searchQuery == SearchQuery(query, key, artist)
  {
    ghost var preds: seq<string> := [PdfOnly];
    searchQuery := PdfOnly;
    if query != "" {
      ConjunctionSnoc(preds, NameContains(query));
      searchQuery := searchQuery + " and " + NameContains(query);
      preds := preds + [NameContains(query)];
    }
    assert searchQuery == Conjunction(preds) && preds == [PdfOnly] + FilterFor(query);
    if key != "" {
      ConjunctionSnoc(preds, NameContains(key));
      searchQuery := searchQuery + " and " + NameContains(key);
      preds := preds + [NameContains(key)];
    }
    assert searchQuery == Conjunction(preds) && preds == [PdfOnly] + FilterFor(query) + FilterFor(key);
    if artist != "" {
      ConjunctionSnoc(preds, NameContains(artist));
      searchQuery := searchQuery + " and " + NameContains(artist);
      preds := preds + [NameContains(artist)];
    }
    assert searchQuery == Conjunction(preds);
    assert preds == [PdfOnly] + (FilterFor(query) + FilterFor(key) + FilterFor(artist));
    NameFiltersOfThree(query, key, artist);
  }

  /** All three fields present: the three name filters follow the PDF
      restriction in the order free text, key, artist. */
  lemma QueryOrder(query: string, key: string, artist: string)
    requires query != "" && key != "" && artist != ""
    ensures SearchQuery(query, key, artist)
         == PdfOnly + " and " + NameContains(query) + " and " + NameContains(key)
            + " and " + NameContains(artist)
  {
    NameFiltersOfThree(query, key, artist);
    var p1 := [PdfOnly];
    var p2 := p1 + [NameContains(query)];
    var p3 := p2 + [NameContains(key)];
    var p4 := p3 + [NameContains(artist)];
    assert Conjunction(p1) == PdfOnly;
    ConjunctionSnoc(p1, NameContains(query));
    ConjunctionSnoc(p2, NameContains(key));
    ConjunctionSnoc(p3, NameContains(artist));
    assert [PdfOnly] + NameFilters([query, key, artist]) == p4;
  }

  // ---------------------------------------------------------------------------
  // GET

  /** The Drive request the route sends for these parameters (when it sends one). */
  function RequestFor(params: Params): (r: DriveRequest)
    requires Truthy(Lookup(params, "access_token"))
    ensures Between(r.authorization, "Bearer ", "") == Lookup(params, "access_token")
    ensures r.fields == FileFields && PdfOnly <= r.query
    ensures r.query == SearchQuery(Param(params, "q"), Param(params, "key"), Param(params, "artist"))
  {
    BetweenOfConcat("Bearer ", Lookup(params, "access_token").value, "");
    assert "Bearer " + Lookup(params, "access_token").value + "" == "Bearer " + Lookup(params, "access_token").value;
    var query := SearchQuery(Param(params, "q"), Param(params, "key"), Param(params, "artist"));
    DriveRequest(query, FileFields, "Bearer " + Lookup(params, "access_token").value)
  }

  /** The file list of a successful reply, each record copied field by field;
      an absent list becomes the empty list. */
  function CopyFiles(files: Option<seq<DriveFile>>): (copied: seq<DriveFile>)
    ensures files.None? ==> copied == []
    ensures files.Some? ==> |copied| == |files.value|
    ensures files.Some? ==> forall i :: 0 <= i < |copied| ==> copied[i] == files.value[i]
  {
    match files
    case None => []
    case Some(fs) =>
      seq(|fs|, i requires 0 <= i < |fs| =>
        var f := fs[i];
        DriveFile(f.id, f.name, f.mimeType, f.modifiedTime, f.webViewLink, f.webContentLink, f.size, f.parents))
  }

  /** The response of `GET /api/google-drive`, where `drive` answers the Drive
      listing request. */
  function GetResponse(params: Params, drive: DriveRequest -> Upstream): (r: SearchResponse)
    ensures r.status == 200 <==> r.body.FileList?
    ensures r.body.FileList? <==> Truthy(Lookup(params, "access_token"))
                                  && drive(RequestFor(params)).Answered? && IsOk(drive(RequestFor(params)).status)
    ensures r.body.SearchFailure? ==> !IsOk(r.status) && r.body.error != ""
  {
    if !Truthy(Lookup(params, "access_token")) then
      Response(401, SearchFailure(AuthRequiredMessage, MissingTokenDebug, true, None))
    else
      match drive(RequestFor(params))
      case Threw(message) =>
        Response(500, SearchFailure(ConnectionFailedMessage, message.GetOr(UnknownError), false, None))
      case Answered(status, statusText, bodyText, files) =>
        if !IsOk(status) then
          if status == 401 then Response(401, SearchFailure(AuthExpiredMessage, bodyText, true, None))
          else Response(status, SearchFailure(ApiErrorMessage(status, statusText), bodyText, false, Some(status)))
        else Response(200, FileList(CopyFiles(files)))
  }

  /** Without a (non-empty) access token the route answers 401 with
      `requiresAuth`, and no Drive request is made: the answer does not depend
      on the Drive listing at all. */
  lemma MissingTokenRejected(params: Params, drive: DriveRequest -> Upstream, other: DriveRequest -> Upstream)
    requires !Truthy(Lookup(params, "access_token"))
    ensures GetResponse(params, drive).status == 401
    ensures GetResponse(params, drive).body == SearchFailure(AuthRequiredMessage, MissingTokenDebug, true, None)
    ensures GetResponse(params, drive) == GetResponse(params, other)
  {
  }

  /** A Drive 401 becomes a 401 with `requiresAuth` and the Drive body as
      `debug`. */
  lemma UpstreamUnauthorized(params: Params, drive: DriveRequest -> Upstream)
    requires Truthy(Lookup(params, "access_token"))
    requires drive(RequestFor(params)).Answered? && drive(RequestFor(params)).status == 401
    ensures GetResponse(params, drive).status == 401
    ensures GetResponse(params, drive).body.SearchFailure?
    ensures GetResponse(params, drive).body.requiresAuth
    ensures GetResponse(params, drive).body.debug == drive(RequestFor(params)).bodyText
  {
  }

  /** Any other non-OK Drive status is passed through, with `status` and
      `debug` and without `requiresAuth`. */
  lemma UpstreamError(params: Params, drive: DriveRequest -> Upstream)
    requires Truthy(Lookup(params, "access_token"))
    requires drive(RequestFor(params)).Answered?
    requires !IsOk(drive(RequestFor(params)).status) && drive(RequestFor(params)).status != 401
    ensures var reply := drive(RequestFor(params));
            && GetResponse(params, drive).status == reply.status
            && GetResponse(params, drive).body.SearchFailure?
            && !GetResponse(params, drive).body.requiresAuth
            && GetResponse(params, drive).body.upstreamStatus == Some(reply.status)
            && GetResponse(params, drive).body.debug == reply.bodyText
  {
  }

  /** A successful Drive reply gives status 200 and its files, same count and
      order; an absent list gives no files. */
  lemma UpstreamSuccess(params: Params, drive: DriveRequest -> Upstream)
    requires Truthy(Lookup(params, "access_token"))
    requires drive(RequestFor(params)).Answered? && IsOk(drive(RequestFor(params)).status)
    ensures var files := drive(RequestFor(params)).files;
            && GetResponse(params, drive).status == 200
            && GetResponse(params, drive).body == FileList(if files.Some? then files.value else [])
  {
  }

  /** An exception while talking to Drive gives status 500 with the fixed
      message. */
  lemma UpstreamThrew(params: Params, drive: DriveRequest -> Upstream)
    requires Truthy(Lookup(params, "access_token"))
    requires drive(RequestFor(params)).Threw?
    ensures GetResponse(params, drive).status == 500
    ensures GetResponse(params, drive).body.SearchFailure?
    ensures GetResponse(params, drive).body.error == ConnectionFailedMessage
    ensures !GetResponse(params, drive).body.requiresAuth
  {
  }

  /** A 401 answer with `requiresAuth` arises exactly from a missing token or a
      Drive 401. */
  lemma RequiresAuthExactly(params: Params, drive: DriveRequest -> Upstream)
    ensures var r := GetResponse(params, drive);
            (r.body.SearchFailure? && r.body.requiresAuth)
            <==> (!Truthy(Lookup(params, "access_token"))
                  || (drive(RequestFor(params)).Answered? && drive(RequestFor(params)).status == 401))
  {
  }

  // ---------------------------------------------------------------------------
  // POST

  /** The parsed POST body, or a body that could not be read as an object
      (destructuring it threw). */
  datatype PostRequest = PostBody(action: Option<string>, fileId: Option<string>) | Unreadable

  datatype PostReply = Download(downloadUrl: string) | PostError(error: string)

  /** The download URL for a file id. */
  function DownloadUrl(fileId: string): (url: string)
    ensures Between(url, DownloadPrefix, DownloadSuffix) == Some(fileId)
  {
    BetweenOfConcat(DownloadPrefix, fileId, DownloadSuffix);
    DownloadPrefix + fileId + DownloadSuffix
  }

  /** The response of `POST /api/google-drive`. A missing `fileId` is
      interpolated as the text "undefined". */
  function PostResponse(request: PostRequest): (r: Response<PostReply>)
    ensures request.PostBody? && request.action == Some("download") ==>
              r.status == 200 && r.body.Download?
              && Between(r.body.downloadUrl, DownloadPrefix, DownloadSuffix) == Some(request.fileId.GetOr("undefined"))
    ensures request.PostBody? && request.action != Some("download") ==>
              r == Response(400, PostError(InvalidActionMessage))
    ensures request.Unreadable? ==> r == Response(500, PostError(RequestFailedMessage))
  {
    match request
    case Unreadable => Response(500, PostError(RequestFailedMessage))
    case PostBody(action, fileId) =>
      if action == Some("download") then Response(200, Download(DownloadUrl(fileId.GetOr("undefined"))))
      else Response(400, PostError(InvalidActionMessage))
  }
}
