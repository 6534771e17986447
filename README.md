# Chord-chart finder on Google Drive — a Dafny model

The application lists worship-team chord charts stored as PDF files in a
Google Drive folder. A browser-side service (`GoogleDriveService`) holds the
session's access token. It asks three HTTP routes for a token, a validity check
and a search. It then turns every Drive file record into a chord chart, reading
the song name, the artist and the musical key off the file name
("Amazing_Grace-John_Newton-Gm.pdf"). Two UI components hold state of their
own: the PDF preview (zoom and rotation) and the advanced-search panel (a
filter record with tags).

The model has eight modules: a shared one, two for `components/google-drive-service.ts` (the file-name extractors and the service) and one for each of the other five source files:

- `Base` holds the shared vocabulary:
  - `Option`, `Result`, an HTTP `Response` of status and body;
  - `Fetched`: what an awaited `fetch` gave, either a reply or the message of the error it threw;
  - the view of the service-account key: whether reading it threw, and what `JSON.parse` makes of it.
- `FileNameMetadata` covers the three extractors of `components/google-drive-service.ts`:
  - the `.pdf` suffix removal;
  - `String.prototype.split` with a one-character separator, with its round-trip lemmas;
  - the `_` replacement;
  - the key pattern `/-([A-G][#b]?m?)(?:-|\.)/i`, written as a scanner that tries the four alternatives in backtracking order and returns the leftmost match. It is proved equal to a declarative description of a key token.
- `DriveRoute` covers `GET` and `POST` of `app/api/google-drive/route.ts`:
  - the query expression built step by step (a method), proved equal to its functional definition;
  - the status and body decision for every Drive reply;
  - the download URL.
- `AuthRoute` covers `POST` of `app/api/google-drive/auth/route.ts`: the key checks, the JWT claim set and the placeholder token grant.
- `ValidateRoute` covers `GET` of `app/api/google-drive/validate/route.ts`, with lemmas relating it to the auth route.
- `DriveService` covers the rest of `components/google-drive-service.ts`:
  - the mapping from file record to chord chart;
  - the search parameters;
  - the class `GoogleDriveService`, whose methods update the `accessToken` field.
- `PdfViewer` is the class `Viewer` of `components/pdf-viewer.tsx`:
  - fields `zoom` and `rotation` and the three handlers;
  - the pure step functions and an inductive proof that every reachable state is valid.
- `AdvancedSearch` is the class `Panel` of `components/advanced-search.tsx`:
  - the filter record, replaced field by field;
  - the values handed to the `onFiltersChange` listener;
  - the tag toggle and its order and duplicate-freedom lemmas.

Environment reads, `fetch`, `JSON.parse`, `Date.now()` and locale date
formatting are parameters of the functions and methods that use them. A
method that awaits a route takes the route's reply as an argument. The search
method takes the route as a function from parameters to reply. The route takes
the Drive listing as a function from request to reply, so "no request is made"
is stated as "the answer does not depend on that function".

Three consequences of the code, proved here, are worth knowing:

- The search route demands an `access_token` URL parameter, but the service
  never sends one. So every search through the service ends in the route's 401
  "authorization required" answer (`DriveService.SearchAlwaysUnauthorized`).
- The validity check and the auth route agree on every key except one that
  parses to the JSON value `null`. Such a key is reported valid, but the auth
  route rejects it: reading `client_email` of `null` throws inside its parse
  handler (`ValidateRoute.ValidMeansAuthSucceeds`, `ValidateRoute.NullKeyDisagrees`).
- The file-name heuristic finds the key by its leftmost occurrence, so an
  artist segment that reads as a key is taken for the key: "S-Am-G.pdf" has
  artist "Am" and key "Am", not "G" (`FileNameMetadata.ArtistReadAsKey`).

Two more behaviours of the code worth knowing:

- A credential is not invalidated on a 401 response. `GoogleDriveService`
  clears its token only when the validity request throws, and on `signOut`.
- The service checks only that a token is held before searching. It does not
  consult the validity route.

## Model

| member | source | states |
|---|---|---|
| FileNameMetadata.WithoutPdfExtension | components/google-drive-service.ts:155 | the result is a prefix of the name; it differs from the name exactly when the name ends in ".pdf" in any letter case, and then by those four characters |
| FileNameMetadata.Split | components/google-drive-service.ts:157 | splitting on "-" gives at least one part, no part contains the separator, and joining the parts with it gives back the input |
| FileNameMetadata.SplitWithoutSeparator | components/google-drive-service.ts:157 | a name without "-" is one segment |
| FileNameMetadata.SplitAtFirstSeparator | components/google-drive-service.ts:157 | the first "-" ends the first segment and the rest is split on its own |
| FileNameMetadata.SplitJoin | components/google-drive-service.ts:157 | splitting undoes joining segments that contain no separator |
| FileNameMetadata.UnderscoresToSpaces | components/google-drive-service.ts:158 | same length; every "_" becomes a space and every other character is kept in place |
| FileNameMetadata.UnderscoresAllReplaced | components/google-drive-service.ts:158 | no "_" is left, and a string without "_" is unchanged |
| FileNameMetadata.SongName | components/google-drive-service.ts:153-159 | the song name is empty exactly when the name without its extension is empty |
| FileNameMetadata.SongNameFallback | components/google-drive-service.ts:158 | when the first segment is empty, the song name is the whole extensionless name, hyphens and underscores kept |
| FileNameMetadata.Artist | components/google-drive-service.ts:161-165 | the artist is never empty (the unknown-artist placeholder stands in) |
| FileNameMetadata.SongNameOfFirstSegment | components/google-drive-service.ts:155-158 | for any name, the song name is its first segment with underscores as spaces, or the whole extensionless name when that segment is empty |
| FileNameMetadata.ArtistOfSecondSegment | components/google-drive-service.ts:162-164 | for any name with a second segment, the artist is that segment with underscores as spaces, or the placeholder when it is empty |
| FileNameMetadata.MatchAt | components/google-drive-service.ts:169 | a match at an index is a hyphen, a key token and a hyphen or dot; at most one token length matches at an index, and the scanner finds it |
| FileNameMetadata.LeftmostKey | components/google-drive-service.ts:169 | the index found matches and no earlier index matches; no index matches when none is found |
| FileNameMetadata.Key | components/google-drive-service.ts:167-171 | the key is always a key token (letter A-G, optional sharp or flat, optional minor, any case) |
| FileNameMetadata.KeyIsLeftmostToken | components/google-drive-service.ts:169-170 | the key is the token of the leftmost hyphen-token-boundary occurrence, and "C" when there is none |
| FileNameMetadata.ThreeSegments | components/google-drive-service.ts:157 | "song-artist-key" splits into exactly those three segments |
| FileNameMetadata.KeyNotAfterFirstHyphen | components/google-drive-service.ts:169 | no key match starts at the hyphen before an artist that is neither a key token nor contains a dot |
| FileNameMetadata.KeyOfStructuredName | components/google-drive-service.ts:167-171 | in "song-artist-key.pdf", where the song has no hyphen and the artist has no hyphen or dot and is not itself a key token, the key found is the one after the second hyphen |
| FileNameMetadata.StructuredName | components/google-drive-service.ts:153-171 | "song-artist-key.pdf", with a non-empty song without hyphens and an artist without hyphen or dot that is not itself a key token, yields the song and artist with underscores as spaces (or the placeholder for an empty artist) and the key |
| FileNameMetadata.ArtistReadAsKey | components/google-drive-service.ts:161-171 | in "S-Am-G.pdf" the artist segment is taken for the key: artist and key are both "Am" |
| FileNameMetadata.NoHyphens | components/google-drive-service.ts:153-171 | a name without hyphens yields the extensionless name with underscores as spaces as song, the unknown artist and the default key |
| FileNameMetadata.AmazingGraceExample | components/google-drive-service.ts:153-171 | "Amazing_Grace-John_Newton-Gm.pdf" yields "Amazing Grace", "John Newton", "Gm" |
| FileNameMetadata.WorshipSongExample | components/google-drive-service.ts:153-171 | "worship_song.pdf" yields "worship song", the unknown artist and "C" |
| FileNameMetadata.KeyAtEndNotMatched | components/google-drive-service.ts:169 | a key token at the very end of a name, after a hyphen, never matches at that hyphen, because the pattern needs a following hyphen or dot |
| FileNameMetadata.KeyAtEndNotFound | components/google-drive-service.ts:167-171 | "Hymn-Choir-G", whose key sits at the very end, gets the default key "C" |
| DriveRoute.Lookup | app/api/google-drive/route.ts:5-9 | a parameter is absent exactly when no pair has its name, and a value found belongs to a pair with that name |
| DriveRoute.LookupAppend | app/api/google-drive/route.ts:5-9 | in two parameter lists one after the other, the first list's value wins |
| DriveRoute.NameFiltersOfThree | app/api/google-drive/route.ts:30-38 | the name filters are those of the free text, the key and the artist, in that order, each only when non-empty |
| DriveRoute.ConjunctionSnoc | app/api/google-drive/route.ts:31 | appending a predicate to the conjunction appends " and " and the predicate |
| DriveRoute.BuildSearchQuery | app/api/google-drive/route.ts:27-38 | the query built by successive appends equals the PDF restriction conjoined with the filters of the non-empty fields |
| DriveRoute.SearchQuery | app/api/google-drive/route.ts:28-38 | every query starts with the PDF MIME-type restriction, and with no non-empty field it is that restriction alone |
| DriveRoute.QueryOrder | app/api/google-drive/route.ts:28-38 | with all three fields, the query is the restriction, then the free text, key and artist filters, joined by " and " |
| DriveRoute.RequestFor | app/api/google-drive/route.ts:43-52 | the request carries the query of the q, key and artist parameters, the fixed field list, and the access token read back from the Bearer header |
| DriveRoute.GetResponse | app/api/google-drive/route.ts:4-108 | status 200 exactly with a file list, which comes exactly from a token and an OK Drive reply; every failure has a non-OK status and a non-empty error (the cases are the lemmas below) |
| DriveRoute.CopyFiles | app/api/google-drive/route.ts:85-95 | the files are passed on with the same count, order and fields; an absent list becomes empty |
| DriveRoute.MissingTokenRejected | app/api/google-drive/route.ts:15-25 | without a non-empty access token the answer is 401 with requiresAuth, whatever Drive would answer |
| DriveRoute.UpstreamUnauthorized | app/api/google-drive/route.ts:56-69 | a Drive 401 gives 401 with requiresAuth and the Drive body as debug |
| DriveRoute.UpstreamError | app/api/google-drive/route.ts:71-78 | another non-OK Drive status is passed through as the status, with status and debug fields and no requiresAuth |
| DriveRoute.UpstreamSuccess | app/api/google-drive/route.ts:81-97 | an OK Drive reply gives 200 and its files |
| DriveRoute.UpstreamThrew | app/api/google-drive/route.ts:98-107 | an exception while talking to Drive gives 500 with the connection-error message |
| DriveRoute.RequiresAuthExactly | app/api/google-drive/route.ts:15-69 | requiresAuth is set exactly for a missing token or a Drive 401 |
| DriveRoute.DownloadUrl | app/api/google-drive/route.ts:118 | the file id can be read back from the download URL |
| DriveRoute.PostResponse | app/api/google-drive/route.ts:110-127 | "download" gives 200 and a URL carrying the file id; any other action gives 400 "Invalid action"; an unreadable body gives 500 |
| AuthRoute.ClaimsFor | app/api/google-drive/auth/route.ts:27-34 | iat is the current time in whole seconds, exp is one hour later, iss is the client email, scope is Drive read-only, aud is the token endpoint |
| AuthRoute.AuthPost | app/api/google-drive/auth/route.ts:3-63 | the status is 200, 400 or 500; 200 exactly with the token body, which is always the placeholder Bearer grant for 3600 seconds; an error is one of the three fixed messages (the cases are the lemmas below) |
| AuthRoute.MissingKeyRejected | app/api/google-drive/auth/route.ts:10-19 | a missing or empty key gives 400 with the configuration message |
| AuthRoute.InvalidKeyRejected | app/api/google-drive/auth/route.ts:45-53 | a key that is not JSON (or is JSON null) gives 400 with the invalid-format message, distinct from the missing-key one |
| AuthRoute.PlaceholderGrant | app/api/google-drive/auth/route.ts:40-44 | a parseable key gives the placeholder Bearer token for 3600 seconds, whatever its contents and the clock |
| AuthRoute.ExpiresInMatchesClaims | app/api/google-drive/auth/route.ts:32-44 | the advertised expires_in equals the lifetime of the claims built for the request |
| AuthRoute.UnexpectedFailure | app/api/google-drive/auth/route.ts:54-61 | an exception before the key is examined gives 500 with the fixed message |
| AuthRoute.AuthSucceedsExactly | app/api/google-drive/auth/route.ts:10-53 | the route answers 200, and then only with a token, exactly when the key is present and parses to a non-null value |
| ValidateRoute.ValidateGet | app/api/google-drive/validate/route.ts:3-33 | a validity body exactly when the key could be read; status 200 exactly when valid; invalid comes with 400 or 401 |
| ValidateRoute.ValidateCases | app/api/google-drive/validate/route.ts:10-31 | missing key 401 invalid, unparseable key 400 invalid, parseable key 200 valid, exception 500 |
| ValidateRoute.ValidExactly | app/api/google-drive/validate/route.ts:15-23 | valid exactly when the key is present and parses; an OK status exactly when valid; the credential contents are never consulted |
| ValidateRoute.ValidMeansAuthSucceeds | app/api/google-drive/validate/route.ts:15-23 | for keys not parsing to null, valid exactly when the auth route grants a token |
| ValidateRoute.NullKeyDisagrees | app/api/google-drive/validate/route.ts:17-19 | a key parsing to null is reported valid while the auth route rejects it with 400 |
| DriveService.ToChordChart | components/google-drive-service.ts:78-87 | id and fileId are both the file id, fileName the name, download link and formatted date copied; the song name is empty only for an empty extensionless name, the artist is never empty, the key is a key token |
| DriveService.ChordCharts | components/google-drive-service.ts:77-88 | one chart per file, in order, carrying its id, name, download link, formatted date and the extracted song, artist (non-empty) and key (a key token); no files gives no charts |
| DriveService.ChartIdsUnique | components/google-drive-service.ts:79 | distinct file ids give distinct chart ids |
| DriveService.SearchParams | components/google-drive-service.ts:61-64 | at most q, key and artist, in that order, each with a non-empty value |
| DriveService.SearchParamsLookup | components/google-drive-service.ts:61-66 | the route reads back each non-empty value under its name and finds no access token |
| DriveService.SearchResult | components/google-drive-service.ts:66-88 | a thrown error is passed on; a file list becomes its chord charts; a failure body with an error fails with exactly that error text, and one with an empty error gives no charts |
| DriveService.SearchAlwaysUnauthorized | components/google-drive-service.ts:61-66 | every search request the service makes is answered 401 with requiresAuth, and the service reports the authorization-required message |
| DriveService.AuthAttempt | components/google-drive-service.ts:32-44 | succeeds exactly for an OK reply, with the reply's access_token; a non-OK reply fails with its error field, or "Service account authentication failed" when that is empty; a thrown error fails with its message |
| DriveService.AuthAttemptAgainstRoute | components/google-drive-service.ts:28-39 | against the auth route: missing key fails with the configuration message, malformed key with the format message, a good key stores the placeholder token |
| DriveService.GoogleDriveService.constructor | components/google-drive-service.ts:16-22 | no token is held and the service-account email is set |
| DriveService.GoogleDriveService.Authenticate | components/google-drive-service.ts:24-46 | an OK reply stores its access token and returns true; otherwise the token is kept and the error is reported |
| DriveService.GoogleDriveService.IsAuthenticated | components/google-drive-service.ts:119-121 | true exactly when a non-empty token is held |
| DriveService.GoogleDriveService.HandleRedirectCallback | components/google-drive-service.ts:48-50 | nothing is ever handled |
| DriveService.GoogleDriveService.SearchFiles | components/google-drive-service.ts:52-93 | authenticates first only without a token, stops on an authentication error, otherwise returns the charts of the route's reply to the search parameters |
| DriveService.GoogleDriveService.ValidateToken | components/google-drive-service.ts:95-110 | false without a token; otherwise the OK flag of the reply, and a thrown error clears the token |
| DriveService.GoogleDriveService.IsAuthenticatedAndValid | components/google-drive-service.ts:112-117 | authenticates without a token, validates with one |
| DriveService.GoogleDriveService.SignOut | components/google-drive-service.ts:119-126 | the token is cleared and the service no longer counts as authenticated |
| DriveService.GoogleDriveService.GetFileContent | components/google-drive-service.ts:128-139 | the file id can be read back from the viewing URL |
| PdfViewer.ZoomedIn | components/pdf-viewer.tsx:19 | zoom-in never exceeds 200, adds 25 below the cap, and stops at 200 |
| PdfViewer.ZoomedOut | components/pdf-viewer.tsx:20 | zoom-out never goes below 50, subtracts 25 above the floor, and stops at 50 |
| PdfViewer.Rotated | components/pdf-viewer.tsx:21 | from a non-negative angle, the result is in [0, 360) and differs from the angle plus 90 by a multiple of 360 |
| PdfViewer.ZoomStepsStayValid | components/pdf-viewer.tsx:19-20 | from a multiple of 25 in [50, 200], both zoom steps stay there |
| PdfViewer.RotationStaysValid | components/pdf-viewer.tsx:21 | from 0, 90, 180 or 270 a rotation stays among them |
| PdfViewer.ZoomLimitsAreFixed | components/pdf-viewer.tsx:19-20 | zoom-in at 200 and zoom-out at 50 change nothing |
| PdfViewer.ZoomOutUndoesZoomIn | components/pdf-viewer.tsx:19-20 | zoom-out after zoom-in restores any zoom from 50 to 175 |
| PdfViewer.FourRotationsIdentity | components/pdf-viewer.tsx:21 | four rotations return to the starting angle |
| PdfViewer.RunStaysValid | components/pdf-viewer.tsx:16-21 | after any sequence of button presses from a valid state (the initial one included), zoom is a multiple of 25 in [50, 200] and rotation one of 0, 90, 180, 270 |
| PdfViewer.RunSeparatesZoomAndRotation | components/pdf-viewer.tsx:19-21 | the final zoom does not depend on the rotation, and the final rotation not on the zoom |
| PdfViewer.Viewer.constructor | components/pdf-viewer.tsx:16-17 | zoom 100, rotation 0, a valid state |
| PdfViewer.Viewer.HandleZoomIn | components/pdf-viewer.tsx:19 | zoom becomes its zoom-in, rotation is unchanged, the state stays valid |
| PdfViewer.Viewer.HandleZoomOut | components/pdf-viewer.tsx:20 | zoom becomes its zoom-out, rotation is unchanged, the state stays valid |
| PdfViewer.Viewer.HandleRotate | components/pdf-viewer.tsx:21 | rotation turns a quarter, zoom is unchanged, the state stays valid |
| AdvancedSearch.FieldsDetermineRecord | components/advanced-search.tsx:17-28 | two filter records with equal fields are equal |
| AdvancedSearch.Apply | components/advanced-search.tsx:46 | the named field holds the new value and every other field keeps its old one |
| AdvancedSearch.ApplyIsUnique | components/advanced-search.tsx:46 | the update is the only record with that property |
| AdvancedSearch.Without | components/advanced-search.tsx:52 | the tag is gone, every other tag occurs as often as before, and nothing new appears |
| AdvancedSearch.WithoutAppend | components/advanced-search.tsx:52 | removal distributes over concatenation, so the remaining tags keep their order |
| AdvancedSearch.WithoutAbsent | components/advanced-search.tsx:52 | removing an absent tag changes nothing |
| AdvancedSearch.Toggled | components/advanced-search.tsx:52 | a tag is in the new list exactly when it was in the old one and is not the toggled tag, or it is the toggled tag and was absent |
| AdvancedSearch.ToggleAbsentAppends | components/advanced-search.tsx:52 | an absent tag is appended after the existing tags |
| AdvancedSearch.TogglePresentRemoves | components/advanced-search.tsx:52 | a present tag is removed from every part of the list, keeping the other tags and their counts |
| AdvancedSearch.ToggleTwiceRestores | components/advanced-search.tsx:52 | toggling an absent tag twice restores the list |
| AdvancedSearch.WithoutKeepsNoDuplicates | components/advanced-search.tsx:52 | removal keeps a list duplicate-free |
| AdvancedSearch.ToggleKeepsNoDuplicates | components/advanced-search.tsx:52 | a duplicate-free tag list stays duplicate-free after any toggle |
| AdvancedSearch.DefaultsAreEmpty | components/advanced-search.tsx:35-43 | the initial record has empty texts, "any" for key, genre and tempo, an empty date range and no tags |
| AdvancedSearch.Panel.constructor | components/advanced-search.tsx:35-43 | the panel starts at the default record with nothing sent to the listener |
| AdvancedSearch.Panel.HandleFilterChange | components/advanced-search.tsx:45-49 | the record becomes the update, and the listener receives that same record |
| AdvancedSearch.Panel.HandleTagToggle | components/advanced-search.tsx:51-54 | only the tag list changes, to its toggle, and the listener receives the new record |
| AdvancedSearch.Panel.ClearFilters | components/advanced-search.tsx:56-68 | the record returns to the initial defaults, which the listener receives |
| AdvancedSearch.Panel.EditDateFrom | components/advanced-search.tsx:200 | only the start date changes; the end date is kept |
| AdvancedSearch.Panel.EditDateTo | components/advanced-search.tsx:209 | only the end date changes; the start date is kept |

## Left out

- Logging (`console.*`) and all JSX rendering are left out. They have no effect on the modelled state.
- `components/google-drive-setup.tsx` and `app/page.tsx` are not part of this model. The first is a setup dialog whose logic only picks hint text; the second is a server component built on the `googleapis` library, which is not shown.
- `downloadFile` is not modelled. In the source it is an empty stub.
- Percent-encoding is not modelled. `encodeURIComponent` and `URLSearchParams` serialisation are left out; parameters are an ordered list of decoded pairs, and the query is the unencoded expression.
- `JSON.parse` is abstract. Only its outcome matters: not JSON, `null`, or a value with or without `client_email`.
- Each `response.json()` is taken to yield the body object the route sent. A reply from another source is not modelled.
- `Date.now()` and the `zh-TW` date formatting are not modelled. They are parameters (`nowMs`, `formatDate`).
- The signed-JWT token exchange is not modelled. The auth route builds the claim set but never signs or exchanges it, and returns a fixed placeholder token.
- Pagination is not modelled.
- Escaping of query field values is not modelled. The source does none, and neither does the model.
- HTTP status texts are not modelled. They are opaque strings taken from the Drive reply.
- Optional parameters (`query?: string`) are modelled as strings. The source only tests whether they are truthy, so "" stands for `undefined`.
- The error thrown by `authenticate` when the caught value is not an `Error` is not modelled. It carries a fixed message, but `fetch` and `response.json()` only ever throw `Error`s, so every failure is modelled as the message it carries.
- Asynchrony and interleaving are not modelled. Each method runs to completion before the next starts.
- The React state hooks are not modelled. Each handler reads the committed state, so two updates batched within one render are not modelled.
- DriveRoute.NameFilters: its own contract only bounds the number of filters. What it produces for the three search fields is stated by `DriveRoute.NameFiltersOfThree`.
- PdfViewer.Viewer.HandleZoomIn: it and the other two handlers require the class invariant, which the constructor establishes and every handler keeps. States outside the invariant are unreachable and not considered.
