# BRD Creator — a Dafny model of its decision and transformation logic

BRD Creator turns an uploaded document, or a Google Doc or Sheet, into a Business
Requirements Document (BRD). It has two halves:

- A React frontend. It uploads files, starts the Google OAuth flow and renders the
  stored BRD.
- A Flask backend. It extracts text, asks a language model for an analysis,
  generates the BRD and stores it as `brd_<id>.json`.

This project models the deterministic logic of both halves as pure Dafny functions
over immutable data and proves properties of it. Every foreign call is a parameter.
This covers OpenAI, the Google APIs, `secure_filename`, uuid, the clock, the file
system, PyPDF2, python-docx, axios, `localStorage` and the WHATWG URL parser.

The modules follow the source files:

| module | models |
|---|---|
| `Base`, `Strings`, `Json` | `Option`/`Result`; the JavaScript and Python string operations the code uses (`split`, `join`, `includes`, `rsplit('.', 1)`, `lower`, `strip`); decoded JSON with JavaScript truthiness |
| `ViewBrd` | `ViewBRD.js`: the key humaniser, `renderNestedObject`, the accordion loop, the executive-summary and source fallbacks, and the page's loading outcomes |
| `FileInfo` | `GoogleDriveConnector.js`: `extractFileInfo` and `handleConnect` |
| `GoogleAuth` | `GoogleAuth.js`: its copy of `extractFileInfo`, written as a loop, and `processAuth`'s guards and response handling |
| `App` | `app.py`: `allowed_file`, the `upload_file` and `process_google_file` routes, the stored record, and `get_brd` with the key sorting of `jsonify` |
| `GoogleDrive` | `google_drive.py`: flattening a Docs body and the lines of a spreadsheet |
| `Analyzer` | `analyzer.py`: the blank-content guard, the truncation and the error prefix |
| `TextProcessor` | `text_processor.py`: the extension dispatch of `process_text` |
| `EndToEnd` | the frontend pages run against the backend routes |

Conventions:

- A Python exception is an `Err` carrying `str(e)`.
- An exception that no `try` catches is the `Uncaught` response, Flask's HTML 500.
- The folder of uploads and records is a map from path to stored item.
- JSON objects are ordered member lists, and lookups find the last duplicate, as
  both `JSON.parse` and `json.loads` do.
- Numbers are integers.

## Model

| member | source | states |
|---|---|---|
| ViewBrd.SpaceBeforeUpper | frontend/src/pages/ViewBRD.js:70 | the first replacement lengthens the key by exactly its number of `A`-`Z` capitals |
| ViewBrd.SpaceBeforeUpperMarksCapitals | frontend/src/pages/ViewBRD.js:70 | after the first replacement every capital is preceded by a space |
| ViewBrd.FormatKeyShape | frontend/src/pages/ViewBRD.js:69-71 | a label is the key's length plus one per capital, and every capital after position 0 follows a space |
| ViewBrd.FormatKeyOnlyAddsSpaces | frontend/src/pages/ViewBRD.js:69-71 | removing the spaces of a label gives the key with its first character upper-cased: formatting only inserts spaces and capitalises |
| ViewBrd.FormatKeyInjectiveOnCamelKeys | frontend/src/pages/ViewBRD.js:69-71 | distinct camelCase keys never share a label |
| ViewBrd.OneCapitalLabel | frontend/src/pages/ViewBRD.js:69-71 | a camelCase key with one capital is labelled as two words, the first capitalised, e.g. `projectScope` becomes `Project Scope` |
| ViewBrd.ExecutiveSummaryLabel | frontend/src/pages/ViewBRD.js:165-167 | `executiveSummary` is labelled `Executive Summary` |
| ViewBrd.LeadingCapitalLabel | frontend/src/pages/ViewBRD.js:69-71 | a key starting with a capital is labelled by the first replacement alone: a leading space, the capital, then the rest of the key's label; the capitalisation step changes nothing |
| ViewBrd.IdLabel | frontend/src/pages/ViewBRD.js:69-71 | so `ID` is labelled `" I D"`, with a leading space |
| ViewBrd.RenderEntry | frontend/src/pages/ViewBRD.js:63-66 | an entry renders to nothing exactly when its value is `null`, `''` or `[]`, and otherwise to one block |
| ViewBrd.KeptMembers | frontend/src/pages/ViewBRD.js:63-66 | the survivors of the empty-value filter are exactly the members whose value is not `null`, `''` or `[]` |
| ViewBrd.RenderMembersFilterThenMap | frontend/src/pages/ViewBRD.js:62-98 | rendering an object filters out the empty values and renders each survivor in its original order, with nothing sorted |
| ViewBrd.RenderMembersAppend | frontend/src/pages/ViewBRD.js:62 | each member is rendered independently and in place: rendering distributes over concatenation |
| ViewBrd.RenderItems | frontend/src/pages/ViewBRD.js:83-90 | an array value gives exactly one list item per element, in order, each rendered by the element dispatch |
| ViewBrd.RenderElementsAsEntries | frontend/src/pages/ViewBRD.js:62 | an array passed to the renderer renders exactly like the object of its index entries, as `Object.entries` sees it |
| ViewBrd.EmptyFilterExamples | frontend/src/pages/ViewBRD.js:62-64 | of members valued `0`, `false`, `{}`, `null`, `''` and `[]`, exactly the first three survive and are rendered, in order |
| ViewBrd.NullAndEmptyListHidden | frontend/src/pages/ViewBRD.js:62-66 | of `{k: "x", teamSize: null, goals: []}` only `k` is rendered |
| ViewBrd.NonSummaryMembers | frontend/src/pages/ViewBRD.js:162 | the accordion loop skips exactly the `executiveSummary` entries |
| ViewBrd.SectionsOnePerKey | frontend/src/pages/ViewBRD.js:160-183 | exactly one accordion per non-summary key, in the order received, titled with the formatted key, with no empty-value filter |
| ViewBrd.SummaryOf | frontend/src/pages/ViewBRD.js:155 | the stored summary when it is truthy, otherwise the fallback text; either way a truthy value |
| ViewBrd.SourceLabel | frontend/src/pages/ViewBRD.js:196 | the source falls back from `original_filename` to `original_source` to `Unknown`, each taken only when truthy |
| ViewBrd.ViewPage | frontend/src/pages/ViewBRD.js:24-196 | the load error exactly when the request failed; the not-found warning, with its text, exactly for a falsy body; a crash exactly when a truthy body has no `brd`, a null one, or an executive summary, `id` or source label that React cannot render as a child (a plain object, or an array holding one); otherwise the page, with the `brd`'s summary and sections, the id, the date and the source label |
| ViewBrd.RenderableChild | frontend/src/pages/ViewBRD.js:155 | React renders a value as a child unless it is a plain object or an array that holds one, at any depth |
| FileInfo.ExtractFileInfo | frontend/src/components/GoogleDriveConnector.js:41-71 | a result has a parsable URL, the type the raw-text test gives, and a file id that is one `/`-free path segment |
| FileInfo.ExtractFileInfoCases | frontend/src/components/GoogleDriveConnector.js:46-66 | `null` for an unparsable URL or one of neither kind; the segment after the first `d`; `null` when that `d` is last; the first segment when there is no `d` |
| FileInfo.ExtractFileInfoNullIff | frontend/src/components/GoogleDriveConnector.js:46-70 | `null` exactly when the URL is unparsable, of neither kind, or its first `d` is its last segment |
| FileInfo.ExtractFileInfoExample | frontend/src/components/GoogleDriveConnector.js:43-44 | every URL of the commented shape `https://docs.google.com/document/d/<id>/edit` yields `{fileId: <id>, fileType: "document"}` |
| FileInfo.DocumentUrlIsDocument | frontend/src/components/GoogleDriveConnector.js:51-52 | a URL containing `docs.google.com/document` is a document |
| FileInfo.ExtractFileInfoStrict | frontend/src/components/GoogleDriveConnector.js:59-66 | the corrected extractor: a result is always the segment right after the first `d` segment |
| FileInfo.StrictAgreesWhenDPresent | frontend/src/components/GoogleDriveConnector.js:60-63 | the corrected and the written extractor agree on every path that has a `d` segment |
| FileInfo.NoDSegmentGivesEmptyId | frontend/src/components/GoogleDriveConnector.js:60-63 | for a supported URL whose `/`-leading path has no `d`, the written extractor gives the empty id where the corrected one gives `null` |
| FileInfo.DocumentFolderUrlHasNoId | frontend/src/components/GoogleDriveConnector.js:60-63 | `https://docs.google.com/document/` is such a URL |
| FileInfo.SingleSegmentPathHasNoId | frontend/src/components/GoogleDriveConnector.js:60-63 | every supported URL whose path is one segment between slashes, `/<seg>/` with `seg` not `d`, gets the empty id from the written extractor and `null` from the corrected one |
| FileInfo.Connect | frontend/src/components/GoogleDriveConnector.js:19-39 | the typed URL is stored and the page redirected to the reply's `auth_url` exactly when that is truthy, with no error; a failed request or a null body shows the connection error, any other reply the initialisation error |
| GoogleAuth.ExtractFileInfo | frontend/src/pages/GoogleAuth.js:75-102 | the page's own copy, computed with an `indexOf` scan, gives the connector's result on every input |
| GoogleAuth.RequestBody | frontend/src/pages/GoogleAuth.js:47-51 | the posted body holds `code`, `fileId` and `fileType`, three members, and no `token` |
| GoogleAuth.RejectionText | frontend/src/pages/GoogleAuth.js:66 | a rejected request shows the server's truthy `error`, else the generic message |
| GoogleAuth.ProcessAuth | frontend/src/pages/GoogleAuth.js:18-70 | the guards run in order with their own messages; the request is sent exactly when all pass; success, clearing the stored URL and the redirect happen exactly when the answer has truthy `success` and `brd_id`; a rejection shows the server's `error` or the generic text, a null answer the generic authentication text, any other unsuccessful answer the not-processed text; loading always ends |
| Analyzer.Truncate | backend/ai_engine/analyzer.py:44-47 | content up to 64000 characters is unchanged; longer content becomes its first 64000 characters followed by the truncation marker |
| Analyzer.TruncateIdempotent | backend/ai_engine/analyzer.py:46-47 | truncating a truncated text changes nothing |
| Analyzer.TruncateKeepsShortContent | backend/ai_engine/analyzer.py:45-47 | the content reaches the model unchanged exactly when it is short enough, or already ends in the marker at the limit |
| Analyzer.AnalyzeContent | backend/ai_engine/analyzer.py:11-68 | blank content fails with the unprefixed message; otherwise the result succeeds exactly when the model call does, and its errors carry the prefix |
| TextProcessor.Extension | backend/processors/text_processor.py:17 | the extension is absent exactly when the path has no dot; otherwise it is dot-free and lower-case |
| TextProcessor.ExtensionOfName | backend/processors/text_processor.py:17 | `stem.ext` has the extension `ext`, lower-cased |
| TextProcessor.ProcessText | backend/processors/text_processor.py:4-37 | a missing file fails first; txt passes through; docx joins paragraphs with newlines; doc always fails; any other extension gives `""`; a dotless path raises unprefixed |
| TextProcessor.DocxParagraphsRoundTrip | backend/processors/text_processor.py:28-30 | splitting a docx's text at newlines gives back its paragraphs when none holds a newline |
| TextProcessor.LegacyDocAlwaysFails | backend/processors/text_processor.py:31-35 | a `.doc` of any letter case fails with the rewrapped legacy message |
| GoogleDrive.DocRunsAppend | backend/processors/google_drive.py:82-86 | the runs of a document are the runs of its parts, in order |
| GoogleDrive.DocTextAppend | backend/processors/google_drive.py:82-86 | the text of concatenated content is the concatenation of the texts |
| GoogleDrive.NonParagraphsContributeNothing | backend/processors/google_drive.py:83 | content without paragraphs yields `""` |
| GoogleDrive.FlattenDoc | backend/processors/google_drive.py:81-88 | the nested loop computes the in-order concatenation of every text run of every paragraph |
| GoogleDrive.ProcessGoogleDoc | backend/processors/google_drive.py:74-91 | the text is produced exactly when the fetch succeeds; an HttpError is rewrapped with the Doc prefix, other failures pass through |
| GoogleDrive.RangeName | backend/processors/google_drive.py:113 | the range is the quoted title followed by `!A1:Z1000` |
| GoogleDrive.RangeNameInjective | backend/processors/google_drive.py:113 | distinct titles request distinct ranges |
| GoogleDrive.SheetBlock | backend/processors/google_drive.py:119-124 | an empty sheet contributes nothing; otherwise the header, one comma-joined line per row, then `"\n"` |
| GoogleDrive.CollectAfterFailure | backend/processors/google_drive.py:112-117 | after a failed read no later sheet changes the outcome |
| GoogleDrive.CollectPrepend | backend/processors/google_drive.py:111-126 | the loop only appends to `all_data`: lines already collected stay in front of whatever the remaining sheets add |
| GoogleDrive.SheetLinesAppend | backend/processors/google_drive.py:112-124 | the sheets are visited in list order: the lines of two title lists are the lines of each, concatenated |
| GoogleDrive.SheetLinesFailure | backend/processors/google_drive.py:112-117 | the lines are produced exactly when every sheet's values were read; otherwise the failure is the first failed read's |
| GoogleDrive.EmptySheetLeavesNoTrace | backend/processors/google_drive.py:119-120 | a sheet with no values leaves the output unchanged |
| GoogleDrive.RowJoinLosesCellBoundaries | backend/processors/google_drive.py:123 | a cell holding a comma is indistinguishable from two cells |
| GoogleDrive.CollectSheetLines | backend/processors/google_drive.py:111-126 | the loop computes the fold over the titles |
| GoogleDrive.ProcessGoogleSheet | backend/processors/google_drive.py:104-129 | the text is produced exactly when the titles and every sheet were read, and it is the lines joined with newlines; otherwise the error is the failed titles read, or the first failed sheet read after all earlier ones succeeded, each with the sheet prefix on an HTTP error |
| GoogleDrive.SheetFailure | backend/processors/google_drive.py:128-129 | an HttpError is rewrapped with the Sheet prefix, other failures pass through |
| App.AllowedFile | backend/app.py:26-33 | a name is allowed exactly when it has a dot and its lower-cased extension is one of the seven |
| App.AllowedFileIff | backend/app.py:32-33 | `stem.ext` is allowed exactly when lower-case `ext` is in the list |
| App.AllowedFileIgnoresCase | backend/app.py:33 | matching ignores letter case |
| App.PathJoinInjective | backend/app.py:73 | joining distinct relative names onto one folder gives distinct paths |
| App.BrdFileNameInjective | backend/app.py:72 | distinct ids get distinct record names |
| App.UploadNeverShadowsRecord | backend/app.py:48 | an upload saved under a uuid prefix never takes a record's name |
| App.RecordJson | backend/app.py:76-81 | the stored record carries the id, the BRD and exactly one of `original_filename` and `original_source` |
| App.RecordMembersLookup | backend/app.py:76-81 | the record's four members each answer their own key, and no other key is present |
| App.SuccessBody | backend/app.py:83-87 | the success answer has a truthy `success` and the record's id |
| App.Finish | backend/app.py:64-90 | 200 exactly when analysis and generation succeed, storing the record under `brd_<id>.json`; a failed extraction, analysis or generation is each a 500 carrying that step's exception text, and stores nothing |
| App.Dispatch | backend/app.py:53-62 | a dotless secured name escapes uncaught; `pdf` goes to the PDF extractor and `txt`, `doc` and `docx` to `process_text`, an extraction failure answering 500 with its text; xls, xlsx and csv get 400 after the file was saved; a 200 stores the record naming the secured file |
| App.UploadFile | backend/app.py:36-92 | the three 400 guards in order; every allowed name is secured, saved under its uuid-prefixed path and dispatched on the folder holding it; nothing else in the folder changes but the record; a 200 comes only from an allowed name |
| App.SavedFileKept | backend/app.py:49-50 | a folder that keeps everything but the record after the save holds the saved file and every earlier entry |
| App.DocDispatchFails | backend/app.py:59-60 | a saved `.doc` goes to the text processor and is answered 500 with its legacy message |
| App.LegacyDocUploadFails | backend/app.py:56-60 | a `.doc` upload is always answered 500 with the text processor's legacy message |
| App.PathJoinExtension | backend/app.py:49-53 | the saved path keeps the secured name's extension |
| App.PyIn | backend/app.py:102 | on an object `in` tests for the key |
| App.MissingParameters | backend/app.py:102 | an empty or absent body is missing parameters; an object has them exactly when it holds `fileId`, `fileType` and `token` |
| App.ProcessGoogleFile | backend/app.py:99-144 | 400 on missing parameters; a `TypeError` from `in` on a non-object escapes uncaught, and so does indexing a body that is not an object; with all three parameters the route continues as `ProcessParameters`; a 200 is a document or spreadsheet whose record's source is `google_<type>_<id>`; only the record changes |
| App.ProcessParameters | backend/app.py:105-144 | a type other than `document` or `spreadsheet` gets 400 "Unsupported Google file type"; a document goes through `process_google_doc`, a spreadsheet through `process_google_sheet`, each then through the shared tail, and a processor's failure is a 500 with its text; a 200 is one of the two types, with the record's source `google_<type>_<id>` |
| App.GoogleFinish | backend/app.py:118-144 | the Google route's tail: a failed extraction is a 500 with its text; a 200 stores the record with its id, its BRD and the source `google_<kind>_<id>`; nothing else changes |
| App.GetBrd | backend/app.py:146-157 | 404 exactly when no record is stored under the id; 200 serves the stored record as `jsonify` writes it, with every object's keys sorted |
| App.KeyBeforeTotal | backend/app.py:157 | Python's string order is total on distinct keys |
| App.KeyBeforeTransitive | backend/app.py:157 | and transitive |
| App.SortMembers | backend/app.py:157 | the members `jsonify` writes for an object have strictly ascending keys |
| App.SortMembersLookup | backend/app.py:155-157 | sorting keeps every key's value, the last one given, so only the order changes |
| App.SortMembersOfAscending | backend/app.py:157 | members already in ascending key order are written as they are |
| App.Served | backend/app.py:155-157 | the served value has the stored value's shape, the same scalars, and objects with ascending keys |
| App.ServedGet | backend/app.py:155-157 | every property read on the served body gives the stored value's, sorted likewise |
| App.ServedTruthy | backend/app.py:155-157 | sorting never changes a value's truthiness or nullness |
| App.GetBrdReadsBack | backend/app.py:146-157 | a stored record is served with 200, and each of its keys reads back as stored, up to sorting |
| App.UploadThenGet | backend/app.py:146-157 | what a successful upload stores is served back under the id it returned, with that id and the secured filename |
| App.GoogleThenGet | backend/app.py:146-157 | likewise for a Google file, with its `google_<type>_<id>` source |
| EndToEnd.ToAxios | frontend/src/pages/GoogleAuth.js:47-66 | a 2xx answer resolves with its body; any other answer rejects |
| EndToEnd.ToFetched | frontend/src/pages/ViewBRD.js:28-33 | the page gets a body exactly for a 2xx answer |
| EndToEnd.CallbackRequestIsRefused | frontend/src/pages/GoogleAuth.js:47-51 | the callback's request is answered 400 "Missing required parameters" and the folder is unchanged |
| EndToEnd.GoogleFlowNeverSucceeds | frontend/src/pages/GoogleAuth.js:47-66 | against the backend the callback never succeeds, and every sent request shows "Missing required parameters" |
| EndToEnd.ConnectThenCallback | frontend/src/components/GoogleDriveConnector.js:25-29 | the callback sends a request for the stored URL exactly when the code is present and the URL is a valid Docs or Sheets URL |
| EndToEnd.FolderUrlCallback | frontend/src/pages/GoogleAuth.js:38-44 | for `https://docs.google.com/document/` the written extractor sends the empty id, where the corrected one stops at the invalid-URL guard |
| EndToEnd.RecordPageShowsFilename | frontend/src/pages/ViewBRD.js:150-196 | a record with a non-empty `original_filename` is shown exactly when its `brd` is present and not null and its executive summary and `id` are renderable React children, and then names that file as its source; otherwise the page crashes |
| EndToEnd.UploadedBrdIsViewable | frontend/src/pages/ViewBRD.js:24-196 | after a successful upload its id loads; the page is shown exactly when the stored `brd` is not null and its executive summary is a renderable React child, and then names the secured file and shows the stored summary as served; otherwise it crashes |
| EndToEnd.ServedRenderable | frontend/src/pages/ViewBRD.js:155 | sorting the keys of a served value neither makes it renderable nor stops it being renderable |
| EndToEnd.ServedSummary | frontend/src/pages/ViewBRD.js:155 | the summary shown for a served `brd` is the stored one's summary, as served |
| EndToEnd.ServedSectionsInKeyOrder | frontend/src/pages/ViewBRD.js:150-196 | a stored record whose `brd` is an object is shown exactly when its summary, id and source label are renderable, and crashes otherwise; when shown, its accordions come in ascending key order, each key keeping its stored value |
| EndToEnd.UnknownBrdShowsLoadError | frontend/src/pages/ViewBRD.js:30-33 | an id never stored shows the load error |

## Left out

- The React markup and MUI components, routing, tabs, the loading spinner while a request is in flight, and the BRD download (a Blob) are not modelled.
- axios, `localStorage`, `window.location` and `setTimeout` are replaced by their results. The 1500 ms delay before navigation is not modelled.
- The WHATWG URL parser is a parameter from the raw text to its pathname.
- `toUpperCase`, `lower` and the capital test cover ASCII letters only. Other scripts' case mappings are not modelled.
- `Object.entries` puts integer-like keys first, in numeric order. The model keeps the order received, which for a served record is Python's ascending string order.
- JSON numbers are integers. Floats and their string forms are not modelled.
- `Created:` on the page formats `created_at` with `toLocaleString`. The date is kept as given.
- `Json.Lookup` picks the last member with a key. Member lists with duplicate keys are otherwise taken as they come.
- App.PyStr: strings inside `repr` are quoted with `'` without Python's escaping or its switch to `"`.
- App.ProcessGoogleFile: a body that is not JSON is read as `None` (a 400). Flask's 415 for a wrong content type is not modelled.
- App.GetBrd: reading an uploaded, non-record file as JSON counts as an uncaught error. Failures of `open` and `json.dump` are not modelled.
- `file.save`, `os.makedirs`, the `MAX_CONTENT_LENGTH` limit and the static `serve` route are not modelled.
- `pdf_processor.py` is a parameter (`processPdf`). `brd_generator.py` is a parameter (`generateBrd`). Neither is part of this model.
- The OpenAI call and the `eval` of its answer are one parameter (`ai`). The Google Docs and Sheets clients, `authenticate_google` and the `GET /api/google/auth` route are parameters or replies.
- `secure_filename`, `uuid.uuid4` and `datetime.now` are parameters (`Services`, `Fresh`).
- GoogleDrive.ProcessGoogleSheet: cells are strings. Python's `str` of non-string cells is not modelled.

## Findings

| source | as written | input that shows it | evidently intended | confidence | as-written member | corrected member |
|---|---|---|---|---|---|---|
| frontend/src/components/GoogleDriveConnector.js:60-63 | `pathParts.indexOf('d') + 1` is 0 when no segment is `d`, so the first segment is returned as the file id | `https://docs.google.com/document/`, pathname `/document/`, gives `{fileId: "", fileType: "document"}` | `null` when there is no `d` segment, as for a `d` in last place | not executed | FileInfo.SingleSegmentPathHasNoId | FileInfo.ExtractFileInfoStrict |

The same code is in `frontend/src/pages/GoogleAuth.js:91-95`. The callback page then
posts the empty id instead of stopping at its invalid-URL guard
(`EndToEnd.FolderUrlCallback`). The page model takes the extractor as a parameter.
The as-written extractor reproduces the page as it behaves. The corrected one
(`FileInfo.ExtractFileInfoStrict`) gives the intended behaviour. It is proved to
return only the segment after a `d`, and to agree with the written one wherever a `d`
segment exists.
