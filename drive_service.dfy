/** The browser-side service that talks to the three routes: it holds the access
    token of the session, asks the search route for PDF files and turns each
    file record into a chord chart with the song name, artist and key read off
    the file name. Every `fetch` is an input: the reply the route gave, or the
    error the call threw. */
module DriveService {

  import opened Base
  import opened FileNameMetadata
  import DriveRoute
  import AuthRoute
  import ValidateRoute

  const DefaultServiceAccountEmail: string := "chord-chart-reader@your-project.iam.gserviceaccount.com"
  const AuthFailedFallback: string := "Service account authentication failed"
  const ViewPrefix: string := "https://drive.google.com/file/d/"
  const ViewSuffix: string := "/view"

  /** A search result as the application shows it. */
  datatype ChordChart = ChordChart(
    id: string,
    songName: string,
    artist: string,
    key: string,
    fileName: string,
    fileId: string,
    lastModified: string,
    downloadUrl: Option<string>)

  // ---------------------------------------------------------------------------
  // From file records to chord charts

  /** One file record as a chord chart; `formatDate` stands for the locale
      date formatting of the modification time. */
  function ToChordChart(file: DriveRoute.DriveFile, formatDate: string -> string): (c: ChordChart)
    ensures c.id == file.id && c.fileId == file.id && c.fileName == file.name
    ensures c.songName == "" <==> WithoutPdfExtension(file.name) == ""
    ensures c.artist != "" && IsKeyToken(c.key)
    ensures c.downloadUrl == file.webContentLink && c.lastModified == formatDate(file.modifiedTime)
  {
    ChordChart(
      file.id,
      SongName(file.name),
      Artist(file.name),
      Key(file.name),
      file.name,
      file.id,
      formatDate(file.modifiedTime),
      file.webContentLink)
  }

  /** The `files` list of a search reply mapped to chord charts; an absent list
      gives no charts. */
  function ChordCharts(files: Option<seq<DriveRoute.DriveFile>>, formatDate: string -> string): (charts: seq<ChordChart>)
    ensures files.None? ==> charts == []
    ensures files.Some? ==> |charts| == |files.value|
    ensures files.Some? ==> forall i :: 0 <= i < |charts| ==>
              var f := files.value[i];
              && charts[i].id == f.id && charts[i].fileId == f.id
              && charts[i].fileName == f.name
              && charts[i].downloadUrl == f.webContentLink
              && charts[i].lastModified == formatDate(f.modifiedTime)
              && charts[i].songName == SongName(f.name)
              && charts[i].artist == Artist(f.name) && charts[i].artist != ""
              && charts[i].key == Key(f.name) && IsKeyToken(charts[i].key)
  {
    match files
    case None => []
    case Some(fs) => seq(|fs|, i requires 0 <= i < |fs| => ToChordChart(fs[i], formatDate))
  }

  /** Chart ids are as distinct as the file ids they come from. */
  lemma ChartIdsUnique(files: seq<DriveRoute.DriveFile>, formatDate: string -> string)
    requires forall i, j :: 0 <= i < j < |files| ==> files[i].id != files[j].id
    ensures var charts := ChordCharts(Some(files), formatDate);
            forall i, j :: 0 <= i < j < |charts| ==> charts[i].id != charts[j].id
  {
  }

  // ---------------------------------------------------------------------------
  // The search request

  /** The position of a search parameter name in the order the service adds them. */
  function ParamRank(name: string): int {
    if name == "q" then 0 else if name == "key" then 1 else if name == "artist" then 2 else 3
  }

  /** The URL parameters `searchFiles` sends: `q`, `key`, `artist`, each only
      when non-empty, in that order. No `access_token` is ever added. */
  function SearchParams(query: string, key: string, artist: string): (params: DriveRoute.Params)
    ensures |params| <= 3
    ensures forall i :: 0 <= i < |params| ==> ParamRank(params[i].0) < 3 && params[i].1 != ""
    ensures forall i, j :: 0 <= i < j < |params| ==> ParamRank(params[i].0) < ParamRank(params[j].0)
  {
    (if query != "" then [("q", query)] else [])
    + (if key != "" then [("key", key)] else [])
    + (if artist != "" then [("artist", artist)] else [])
  }

  /** The route reads back each non-empty value under its name, and finds no
      access token. */
  lemma SearchParamsLookup(query: string, key: string, artist: string)
    ensures var params := SearchParams(query, key, artist);
            && DriveRoute.Lookup(params, "q") == (if query != "" then Some(query) else None)
            && DriveRoute.Lookup(params, "key") == (if key != "" then Some(key) else None)
            && DriveRoute.Lookup(params, "artist") == (if artist != "" then Some(artist) else None)
            && DriveRoute.Lookup(params, "access_token") == None
  {
    var qs: DriveRoute.Params := if query != "" then [("q", query)] else [];
    var ks: DriveRoute.Params := if key != "" then [("key", key)] else [];
    var ars: DriveRoute.Params := if artist != "" then [("artist", artist)] else [];
    DriveRoute.LookupAppend(qs, ks, "q");
    DriveRoute.LookupAppend(qs + ks, ars, "q");
    DriveRoute.LookupAppend(qs, ks, "key");
    DriveRoute.LookupAppend(qs + ks, ars, "key");
    DriveRoute.LookupAppend(qs, ks, "artist");
    DriveRoute.LookupAppend(qs + ks, ars, "artist");
    DriveRoute.LookupAppend(qs, ks, "access_token");
    DriveRoute.LookupAppend(qs + ks, ars, "access_token");
  }

  /** How the service reads the JSON of a search reply: an error field that is
      truthy fails the search; otherwise the `files` list, absent ones giving
      no charts. */
  function SearchResult(reply: Fetched<DriveRoute.SearchResponse>, formatDate: string -> string)
    : (r: Result<seq<ChordChart>, string>)
    ensures reply.Thrown? ==> r == Err(reply.message)
    ensures reply.Received? && reply.response.body.FileList? ==>
              r == Ok(ChordCharts(Some(reply.response.body.files), formatDate))
    ensures reply.Received? && reply.response.body.SearchFailure? && reply.response.body.error != "" ==>
              r == Err(reply.response.body.error)
    ensures reply.Received? && reply.response.body.SearchFailure? && reply.response.body.error == "" ==>
              r == Ok([])
    ensures r.Err? ==> r.error != "" || reply.Thrown?
  {
    match reply
    case Thrown(message) => Err(message)
    case Received(response) =>
      match response.body
      case FileList(files) => Ok(ChordCharts(Some(files), formatDate))
      case SearchFailure(error, _, _, _) =>
        if error != "" then Err(error) else Ok(ChordCharts(None, formatDate))
  }

  /** Because the service never sends an access token, the search route always
      takes its missing-token branch, whatever Drive would answer: every search
      through the route fails with the authorization-required message. */
  lemma SearchAlwaysUnauthorized(query: string, key: string, artist: string,
                                 drive: DriveRoute.DriveRequest -> DriveRoute.Upstream,
                                 formatDate: string -> string)
    ensures var response := DriveRoute.GetResponse(SearchParams(query, key, artist), drive);
            && response.status == 401
            && response.body.SearchFailure? && response.body.requiresAuth
            && SearchResult(Received(response), formatDate) == Err(DriveRoute.AuthRequiredMessage)
  {
    SearchParamsLookup(query, key, artist);
  }

  // ---------------------------------------------------------------------------
  // Authentication replies

  /** The `error` field of an auth reply, empty when absent. */
  function AuthErrorField(body: AuthRoute.AuthBody): string {
    match body
    case AuthError(error) => error
    case TokenGrant(_, _, _) => ""
  }

  /** The `access_token` field of an auth reply, None when absent. */
  function AccessTokenField(body: AuthRoute.AuthBody): Option<string> {
    match body
    case TokenGrant(token, _, _) => Some(token)
    case AuthError(_) => None
  }

  /** What `authenticate` makes of the auth route's reply: the token to store,
      or the message of the error it throws. */
  function AuthAttempt(reply: Fetched<AuthRoute.AuthResponse>): (r: Result<Option<string>, string>)
    ensures r.Err? ==> r.error != "" || (reply.Thrown? && r.error == reply.message)
    ensures r.Ok? <==> reply.Received? && IsOk(reply.response.status)
    ensures reply.Received? && IsOk(reply.response.status) ==> r == Ok(AccessTokenField(reply.response.body))
    ensures reply.Received? && !IsOk(reply.response.status) ==>
              r == Err(if AuthErrorField(reply.response.body) != "" then AuthErrorField(reply.response.body)
                       else AuthFailedFallback)
  {
    match reply
    case Thrown(message) => Err(message)
    case Received(response) =>
      if !IsOk(response.status) then
        var error := AuthErrorField(response.body);
        Err(if error != "" then error else AuthFailedFallback)
      else Ok(AccessTokenField(response.body))
  }

  /** Against the auth route: a configured, parseable key stores the placeholder
      token; a missing key fails with the configuration message; a malformed
      one with the invalid-format message. */
  lemma AuthAttemptAgainstRoute(key: Option<string>, parse: string -> ParsedKey, nowMs: int)
    ensures var attempt := AuthAttempt(Received(AuthRoute.AuthPost(Read(key), parse, nowMs)));
            && (!Truthy(key) ==> attempt == Err(AuthRoute.MissingKeyMessage))
            && (Truthy(key) && !parse(key.value).JsonValue? ==> attempt == Err(AuthRoute.InvalidKeyMessage))
            && (Truthy(key) && parse(key.value).JsonValue? ==>
                  attempt == Ok(Some(AuthRoute.PlaceholderToken)) && Truthy(attempt.value))
  {
  }

  // ---------------------------------------------------------------------------
  // The session object

  class GoogleDriveService {
    var accessToken: Option<string>
    var serviceAccountEmail: Option<string>

    constructor ()
      ensures accessToken == None && !IsAuthenticated()
      ensures serviceAccountEmail == Some(DefaultServiceAccountEmail)
    {
      accessToken := None;
      serviceAccountEmail := Some(DefaultServiceAccountEmail);
    }

    /** The session holds a token (`!!accessToken`). */
    predicate IsAuthenticated()
      reads this
      ensures IsAuthenticated() <==> accessToken != None && accessToken != Some("")
    {
      Truthy(accessToken)
    }

    /** Ask the auth route for a token and store the `access_token` of an OK
        reply; a failed reply or a thrown error leaves the token as it was
        and is reported with its message. */
    method Authenticate(reply: Fetched<AuthRoute.AuthResponse>) returns (r: Result<bool, string>)
      modifies this`accessToken
      ensures AuthAttempt(reply).Ok? ==> r == Ok(true) && accessToken == AuthAttempt(reply).value
      ensures AuthAttempt(reply).Err? ==> r == Err(AuthAttempt(reply).error) && accessToken == old(accessToken)
    {
      match reply
      case Thrown(message) =>
        r := Err(message);
      case Received(response) =>
        if !IsOk(response.status) {
          var error := AuthErrorField(response.body);
          r := Err(if error != "" then error else AuthFailedFallback);
        } else {
          accessToken := AccessTokenField(response.body);
          r := Ok(true);
        }
    }

    /** The redirect flow is not supported: nothing is ever handled. */
    method HandleRedirectCallback() returns (handled: bool)
      ensures !handled
    {
      handled := false;
    }

    /** Search for chord charts: authenticate first when no token is held,
        then ask the search route (`route` answers the request for the given
        parameters) and map its files. */
    method SearchFiles(query: string, key: string, artist: string,
                       authReply: Fetched<AuthRoute.AuthResponse>,
                       route: DriveRoute.Params -> Fetched<DriveRoute.SearchResponse>,
                       formatDate: string -> string)
      returns (r: Result<seq<ChordChart>, string>)
      modifies this`accessToken
      ensures old(IsAuthenticated()) ==>
                accessToken == old(accessToken)
                && r == SearchResult(route(SearchParams(query, key, artist)), formatDate)
      ensures !old(IsAuthenticated()) && AuthAttempt(authReply).Err? ==>
                accessToken == old(accessToken) && r == Err(AuthAttempt(authReply).error)
      ensures !old(IsAuthenticated()) && AuthAttempt(authReply).Ok? ==>
                accessToken == AuthAttempt(authReply).value
                && r == SearchResult(route(SearchParams(query, key, artist)), formatDate)
    {
      if !IsAuthenticated() {
        var auth := Authenticate(authReply);
        if auth.Err? {
          r := Err(auth.error);
          return;
        }
      }
      var params := SearchParams(query, key, artist);
      var reply := route(params);
      r := SearchResult(reply, formatDate);
    }

    /** Without a token: false, and no request is made. Otherwise the OK flag
        of the validate route's reply; a thrown error clears the token. */
    method ValidateToken(reply: Fetched<ValidateRoute.ValidateResponse>) returns (valid: bool)
      modifies this`accessToken
      ensures !old(IsAuthenticated()) ==> !valid && accessToken == old(accessToken)
      ensures old(IsAuthenticated()) && reply.Thrown? ==> !valid && accessToken == None && !IsAuthenticated()
      ensures old(IsAuthenticated()) && reply.Received? ==>
                valid == IsOk(reply.response.status) && accessToken == old(accessToken)
    {
      if !IsAuthenticated() {
        return false;
      }
      match reply
      case Thrown(_) =>
        accessToken := None;
        valid := false;
      case Received(response) =>
        valid := IsOk(response.status);
    }

    /** Authenticate when no token is held, otherwise validate the one held. */
    method IsAuthenticatedAndValid(authReply: Fetched<AuthRoute.AuthResponse>,
                                   validateReply: Fetched<ValidateRoute.ValidateResponse>)
      returns (r: Result<bool, string>)
      modifies this`accessToken
      ensures !old(IsAuthenticated()) && AuthAttempt(authReply).Ok? ==>
                r == Ok(true) && accessToken == AuthAttempt(authReply).value
      ensures !old(IsAuthenticated()) && AuthAttempt(authReply).Err? ==>
                r == Err(AuthAttempt(authReply).error) && accessToken == old(accessToken)
      ensures old(IsAuthenticated()) ==>
                r == Ok(validateReply.Received? && IsOk(validateReply.response.status))
                && accessToken == (if validateReply.Thrown? then None else old(accessToken))
    {
      if !IsAuthenticated() {
        r := Authenticate(authReply);
      } else {
        var valid := ValidateToken(validateReply);
        r := Ok(valid);
      }
    }

    /** Forget the token. */
    method SignOut()
      modifies this`accessToken
      ensures accessToken == None && !IsAuthenticated()
    {
      accessToken := None;
    }

    /** The viewing URL of a file; the id can be read back from it. */
    method GetFileContent(fileId: string) returns (url: string)
      ensures Between(url, ViewPrefix, ViewSuffix) == Some(fileId)
    {
      url := ViewPrefix + fileId + ViewSuffix;
      BetweenOfConcat(ViewPrefix, fileId, ViewSuffix);
    }
  }
}
