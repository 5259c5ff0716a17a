# HealthDocumentTracker backend: request validation and response shaping

This project models the part of the HealthDocumentTracker backend that has
logic of its own. It covers three things. The first is the upload extension
check `allowed_file` and the storage-client guard in `Backend/config.py`. The
second is the upload endpoint `POST /documents` in `Backend/upload.py`. The
third is the placeholder search endpoint `POST /documents/search` in
`Backend/search.py`. All three are stateless guard code, so each handler is a
pure function from an abstract request to a `Response`. A `Response` holds a
status code and the JSON object of string fields that `jsonify` would send.

Modules, one per source file, plus one for shared values:

- `Common` (`common.dfy`): `Option`, `Result`, the caught `Exception`s
  (`ValueError` and every other kind), `Outcome` (a collaborator call
  completes or raises), `Response`, and string predicates.
- `Config` (`config.dfy`): the allow-list, `allowed_file` (Python's
  `rsplit('.', 1)` and `lower()` written out), the container-name default, and
  `get_blob_service_client`. The storage SDK is a datatype `BlobSdk` of total
  functions: whether `from_connection_string`, `create_container` and
  `upload_blob` complete or raise, and what `.url` reports.
- `Upload` (`upload.dfy`): the validation cascade, the blob name
  `id + "_" + secured name`, the swallowed `create_container` failure, the two
  `except` branches, and the 201 body. The `uuid4()` text, `secure_filename`
  and the iteration order of the allow-list set are parameters.
- `Search` (`search.dfy`): Python's `str.strip()`, using CPython's
  `isspace()` characters, with its left index and right index. Also Python
  truthiness, the `'query' in data` test on every JSON kind, `.get` and
  `.strip()` on values that lack them, and the response shapes.

Where the prose description of the system and the code differ, the model
follows the code:

- The search endpoint echoes the stripped query, not the query as sent.
- The search endpoint modelled is the placeholder variant in
  `Backend/search.py`. It calls no inference service and answers
  "Search endpoint ready".
- On upload, a `ValueError` from any step gives 500 with the bare message.
  This covers the missing connection string and a connection string the SDK
  refuses. Only other exceptions get the "Failed to upload file: " prefix.
- Some client mistakes reach the generic `except Exception` branch and get
  500, not 400:
  - a non-string `query` such as `{"query": 5}`;
  - a body that is a number or `true`;
  - a list or string body that contains `"query"`.

  `SearchNonStringQuery` and `SearchNonObjectBody` state this.

## Model

| member | source | states |
|---|---|---|
| `Config.ContainerName` | Backend/config.py:13 | the default "health-documents" applies when the variable is unset; a set value, even an empty one, is used as is |
| `Config.Lower` | Backend/config.py:20 | `lower()` keeps the length, leaves no upper-case letter, turns each upper-case letter into its lower-case letter and keeps every other character |
| `Config.LastDot` | Backend/config.py:20 | none exactly when the name has no dot; otherwise a dot's index with no dot after it |
| `Config.RSplitDot` | Backend/config.py:20 | `rsplit('.', 1)`: `[s]` without a dot; otherwise two parts that rejoin around "." to `s`, the second dot-free |
| `Config.AllowedFile` | Backend/config.py:18-20 | `allowed_file`: an accepted name contains a dot, has at least four characters and does not end in a dot; `AllowedFileExactly` and `AllowedFileNeedsDot` characterize it completely |
| `Config.RSplitDotOfJoin` | Backend/config.py:20 | splitting `stem + "." + ext` with dot-free `ext` returns `[stem, ext]`, whatever dots `stem` holds |
| `Config.AllowedFileExactly` | Backend/config.py:16-20 | `stem.ext` is accepted iff `ext` lowered is one of pdf, doc, docx, txt, jpg, jpeg, png |
| `Config.AllowedFileNeedsDot` | Backend/config.py:20 | a filename with no dot is rejected |
| `Config.AllowedFileIgnoresStem` | Backend/config.py:20 | changing the text before the last dot never changes the verdict |
| `Config.AllowedFileIgnoresCase` | Backend/config.py:20 | extensions with the same lowered form get the same verdict; the lowered extension gets the original's verdict |
| `Config.AllowedFileTrailingDot` | Backend/config.py:20 | a filename ending in "." has an empty extension and is rejected |
| `Config.AllowedFileAcceptsEachExtension` | Backend/config.py:16-20 | each of the seven extensions is accepted after any stem |
| `Config.AllowedFileExampleNestedPdf` | Backend/config.py:20 | "a.tar.pdf" is accepted |
| `Config.AllowedFileExampleTrailingExe` | Backend/config.py:20 | "a.pdf.exe" is rejected |
| `Config.AllowedFileExampleUpperPng` | Backend/config.py:20 | "x.PNG" is accepted |
| `Config.GetBlobServiceClient` | Backend/config.py:22-26 | an absent or empty connection string gives ValueError "Azure Storage connection string not configured"; a client is returned exactly when the string is non-empty and the SDK accepts it, and the client is built from that string |
| `Upload.Join` | Backend/upload.py:38 | `", ".join`: no parts give the empty text; otherwise the text begins with the first part |
| `Upload.JoinOffset` | Backend/upload.py:38 | every element of a `", ".join` occurs in the joined text at the returned offset |
| `Upload.BlobName` | Backend/upload.py:42 | the blob name is the identifier, then "_", then the secured name, and its length is the sum of the three |
| `Upload.Validate` | Backend/upload.py:27-38 | the three client-side checks pass exactly when there is a `file` part with a non-empty, allowed name, and then yield that part; otherwise the message is one of the three 400 messages |
| `Upload.Failed` | Backend/upload.py:76-79 | both `except` branches answer 500 with only an `error` field |
| `Upload.UploadBlob` | Backend/upload.py:56-74 | the upload step answers 201 with the five fields, or 500 with only an `error` field |
| `Upload.Store` | Backend/upload.py:44-79 | the storage part answers 201 with the five fields, or 500 with only an `error` field |
| `Upload.UploadDocument` | Backend/upload.py:18-79 | `upload_document`: every answer is 201, 400 or 500; a failure has only an `error` field, a success exactly message, blob_name, original_filename, blob_url and container; `UploadBadRequestIsClientSide`, `UploadSucceeds` and `UploadCreatedShape` characterize when each comes |
| `Upload.UploadWithoutFile` | Backend/upload.py:27-28 | no `file` part gives 400 "No file provided", whatever the configuration, SDK, id or name helper |
| `Upload.UploadWithEmptyName` | Backend/upload.py:33-34 | an empty filename gives 400 "No file selected" |
| `Upload.NotAllowedMessageNamesAll` | Backend/upload.py:38 | the refusal message begins "File type not allowed" and every extension in the iteration order occurs in it |
| `Upload.UploadWithRefusedExtension` | Backend/upload.py:37-38 | a name refused by allowed_file gives 400; the message begins "File type not allowed" and names every allowed extension |
| `Upload.UploadBadRequestIsClientSide` | Backend/upload.py:27-45 | status is 400 iff there is no `file` part, its name is empty, or allowed_file refuses it; a 400 does not depend on configuration, SDK, id or name helper, so no storage client is requested |
| `Upload.UploadNotConfigured` | Backend/upload.py:45-77 | a valid file with no connection string gives 500 with the configuration error's message |
| `Upload.UploadServerErrorAfterValidation` | Backend/upload.py:25-79 | every status is 201, 400 or 500; a 500 only comes after all three checks pass |
| `Upload.UploadStorageFailure` | Backend/upload.py:63-79 | a raising upload gives 500: a ValueError with its message, any other exception as "Failed to upload file: " + message |
| `Upload.UploadClientRefused` | Backend/upload.py:44-79 | a valid file and a non-empty connection string the SDK refuses give 500 with only an `error` field: a ValueError with its message, any other exception as "Failed to upload file: " + message |
| `Upload.UploadIgnoresCreateContainer` | Backend/upload.py:48-53 | whether create_container completes or raises never changes the answer |
| `Upload.UploadSucceeds` | Backend/upload.py:41-74 | a `file` part with an allowed name, a non-empty connection string the SDK accepts, and a completed upload to the configured container under the generated name give 201 |
| `Upload.UploadCreatedShape` | Backend/upload.py:41-74 | a 201 needs a `file` part with an allowed name and a connection string; the upload went to the configured container under `id + "_" + secured name`; the body holds that blob name, the secured filename, the SDK's URL for that blob and the container |
| `Upload.BlobNameInjective` | Backend/upload.py:42 | for ids of equal length, equal blob names mean equal ids and equal secured names, and conversely |
| `Upload.UploadDistinctIds` | Backend/upload.py:42-70 | two 201 uploads of one file under distinct ids of equal length (uuid4 text is 36 characters) report distinct blob names |
| `Search.IsSpace` | Backend/search.py:24 | `isspace()` holds of the six ASCII whitespace characters and never of a letter, a digit or a dot |
| `Search.LeftEnd` | Backend/search.py:24 | the left end of what `strip()` keeps: everything from the start index up to it is whitespace, the character at it is not |
| `Search.RightEnd` | Backend/search.py:24 | the right end of what `strip()` keeps: everything from it up to the end is whitespace, the character before it (past the left end) is not |
| `Search.Strip` | Backend/search.py:24 | `strip()` keeps a contiguous middle of the text, removes only whitespace around it, and leaves no whitespace at either end |
| `Search.StripUnique` | Backend/search.py:24 | a text without whitespace at its ends, surrounded by any whitespace, strips to exactly itself |
| `Search.StripAllSpace` | Backend/search.py:24-26 | a text made only of whitespace strips to the empty text |
| `Search.StripIdempotent` | Backend/search.py:24 | stripping twice equals stripping once |
| `Search.StripIgnoresPadding` | Backend/search.py:24 | extra whitespace at either end does not change the stripped text |
| `Search.Truthy` | Backend/search.py:21 | `not data` holds exactly of null, false, 0, "", [] and {} |
| `Search.HasQuery` | Backend/search.py:21 | `'query' in data` raises exactly on null, booleans and numbers; on an object it is the key test, on a list the element test, on a string the substring test |
| `Search.GetQuery` | Backend/search.py:24 | `data.get('query', '')` works exactly on objects, giving the value under `query` or "" when absent |
| `Search.StripQuery` | Backend/search.py:24-26 | `.strip()` works exactly on strings; the result is empty iff the text is all whitespace, and otherwise has no whitespace at either end |
| `Search.SearchDocuments` | Backend/search.py:10-39 | `search_documents`: every answer is 200, 400 or 500; a failure has only an `error` field, a success exactly message, query and note; `SearchReadyOnlyIf` and `SearchResponseKinds` characterize when each comes |
| `Search.SearchWithoutQuery` | Backend/search.py:21-22 | a falsy body (null, false, 0, "", [], {}) or an object without `query` gives 400 "No query provided" |
| `Search.SearchBlankQuery` | Backend/search.py:24-27 | a present, all-whitespace query gives 400 "Query cannot be empty" |
| `Search.SearchObjectWithQuery` | Backend/search.py:21-24 | an object body with a `query` key is answered from that key's value alone |
| `Search.SearchReady` | Backend/search.py:24-36 | a query with a non-whitespace character gives 200 with "Search endpoint ready", the note and the stripped query, which is non-empty with no whitespace at its ends |
| `Search.SearchReadyOnlyIf` | Backend/search.py:19-36 | status 200 iff the body is an object whose `query` is a string that does not strip to empty |
| `Search.SearchResponseKinds` | Backend/search.py:17-39 | every status is 200, 400 or 500; a 400 carries one of the two validation messages; a 500 carries "Search failed: " and comes from any raising get_json |
| `Search.SearchFailedShape` | Backend/search.py:38-39 | the `except` branch answers 500 with an error that begins "Search failed: " |
| `Search.SearchNonStringQuery` | Backend/search.py:24-39 | a non-string query fails on `.strip()` and gives 500, not 400 |
| `Search.SearchNonObjectBody` | Backend/search.py:21-39 | a truthy non-object body: a number or true gives 500 from the `in` test; a list or string gives 500 from `.get` if it contains "query", else 400 |
| `Search.SearchEchoIsStable` | Backend/search.py:24-34 | resubmitting the echoed query as `{"query": echo}` yields the identical response |
| `Search.SearchIgnoresPadding` | Backend/search.py:24 | adding whitespace before or after the query never changes the response |
| `Search.SearchExampleEmptyObject` | Backend/search.py:21-22 | `{}` gives 400 "No query provided" |
| `Search.SearchExampleBlank` | Backend/search.py:24-27 | `{"query": "  "}` gives 400 "Query cannot be empty" |
| `Search.SearchExampleEcho` | Backend/search.py:24-36 | `{"query": "What is my blood pressure?"}` gives 200 echoing that same string |

## Left out

- Flask routing, `request`, `jsonify` and HTTP framing. Requests and responses are datatypes.
- Azure Blob SDK internals. `create_container` and `upload_blob` are network calls; `from_connection_string` parses the string locally and may raise; `.url` is built locally. Each is a field of `BlobSdk` giving a completed or raised outcome, or the URL as an opaque string.
- `get_container_client` and `get_blob_client` only build client objects locally and have no field of their own: `Store` treats them as never raising. A raise from `get_container_client` (`Backend/upload.py` line 48, outside the swallowing `try` at lines 49-53, for instance on the empty container name `ContainerName` passes through) or from `get_blob_client` reaches the same `except` branches as a raise from `upload_blob`, so the model expresses it only as a `Raised` outcome of `uploadBlob`.
- `uuid.uuid4()` randomness. The id text is a parameter, so global uniqueness of blob names is not modelled. Only injectivity for ids of equal length is proved.
- `werkzeug.utils.secure_filename`. Its code is not part of this model. It is an arbitrary function parameter, and nothing is claimed about the extension it keeps.
- `load_dotenv` and `os.getenv`. They are environment I/O. The connection string and container name are inputs (`Environment`).
- `file.seek(0)`. It is stream I/O. The uploaded content is a byte sequence passed to the upload.
- The iteration order of `ALLOWED_EXTENSIONS` in the 400 message. Python leaves it unspecified, so it is a parameter. Only the prefix and the presence of each extension are stated.
- The search variant that calls a hosted agent. That code is not part of this model, which covers only the placeholder endpoint.
- `Config.Lower` lowers ASCII letters only, unlike Python's full Unicode `lower()`. This does not change `allowed_file`: no non-ASCII character lowers to a single ASCII letter that appears in an allowed extension.
- JSON numbers are integers. Floats (for which `0.0` is falsy and whose type name is `float`) are not modelled.
- The text of the exceptions `request.get_json()` raises for a malformed body or a non-JSON content type. It is a parameter of `GetJsonRaised`.
- The exact wording of Python's TypeError and AttributeError messages follows CPython 3.x. Other interpreters' wording is not modelled.
