/** POST /documents: validate the multipart field `file`, give it a unique
    blob name and store it in the configured container. The storage SDK,
    the random identifier and `secure_filename` are parameters. */
module Upload {
  import opened Common
  import opened Config

  /** One file part of a multipart request. */
  datatype FileStorage = FileStorage(filename: string, content: seq<byte>)

  /** The request as the handler sees it: its file parts, by field name. */
  datatype UploadRequest = UploadRequest(files: map<string, FileStorage>)

  const NoFileMessage: string := "No file provided"
  const NoSelectionMessage: string := "No file selected"
  const NotAllowedPrefix: string := "File type not allowed. Allowed types: "
  const UploadedMessage: string := "File uploaded successfully"
  const UploadFailedPrefix: string := "Failed to upload file: "

  /** The fields of a 201 answer. */
  const CreatedFields: set<string> := {"message", "blob_name", "original_filename", "blob_url", "container"}

  /** Python's `sep.join(parts)`: empty for no parts, otherwise it begins
      with the first part; `JoinOffset` places every other part. */
  function Join(parts: seq<string>, sep: string): (r: string)
    ensures |parts| == 0 ==> r == ""
    ensures |parts| > 0 ==> OccursAt(parts[0], r, 0)
  {
    if |parts| == 0 then ""
    else if |parts| == 1 then parts[0]
    else
      var r := parts[0] + sep + Join(parts[1..], sep);
      assert r[..|parts[0]|] == parts[0];
      r
  }

  /** Where `parts[i]` starts inside `Join(parts, sep)`. */
  function JoinOffset(parts: seq<string>, sep: string, i: nat): (k: nat)
    requires i < |parts|
    ensures OccursAt(parts[i], Join(parts, sep), k)
  {
    if i == 0 then 0
    else
      var k := |parts[0]| + |sep| + JoinOffset(parts[1..], sep, i - 1);
      assert Join(parts, sep) == parts[0] + sep + Join(parts[1..], sep);
      k
  }

  /** The 400 message for a refused extension. `extensionOrder` is the order
      in which the allow-list set happens to be iterated. */
  function NotAllowedMessage(extensionOrder: seq<string>): string {
    NotAllowedPrefix + Join(extensionOrder, ", ")
  }

  /** `f"{uuid.uuid4()}_{original_filename}"`: the identifier, an underscore
      right after it, and the secured name after that. */
  function BlobName(id: string, securedName: string): (name: string)
    ensures |name| == |id| + 1 + |securedName|
    ensures name[..|id|] == id && name[|id|] == '_' && name[|id| + 1..] == securedName
  {
    id + "_" + securedName
  }

  /** The three client-side checks, in the order the handler makes them:
      the file part, its name, its extension. */
  function Validate(request: UploadRequest, extensionOrder: seq<string>): (r: Result<FileStorage, string>)
    ensures r.Success? <==>
      "file" in request.files && request.files["file"].filename != "" && AllowedFile(request.files["file"].filename)
    ensures r.Success? ==> r.value == request.files["file"]
    ensures r.Failure? ==> r.error in {NoFileMessage, NoSelectionMessage, NotAllowedMessage(extensionOrder)}
  {
    if "file" !in request.files then Failure(NoFileMessage)
    else
      var file := request.files["file"];
      if file.filename == "" then Failure(NoSelectionMessage)
      else if !AllowedFile(file.filename) then Failure(NotAllowedMessage(extensionOrder))
      else Success(file)
  }

  /** The two `except` branches: a ValueError is reported with its own
      message, any other exception behind a prefix. */
  function Failed(e: Exception): (r: Response)
    ensures r.status == 500 && r.body.Keys == {"error"}
  {
    match e
    case ValueError(m) => ErrorResponse(500, m)
    case OtherException(m) => ErrorResponse(500, UploadFailedPrefix + m)
  }

  /** The storage part of the handler, reached only with a validated file. */
  function Store(file: FileStorage, env: Environment, sdk: BlobSdk, originalFilename: string, id: string): (r: Response)
    ensures r.status in {201, 500}
    ensures r.status == 500 ==> r.body.Keys == {"error"}
    ensures r.status == 201 ==> r.body.Keys == CreatedFields
  {
    var uniqueFilename := BlobName(id, originalFilename);
    match GetBlobServiceClient(env.connectionString, sdk)
    case Failure(e) => Failed(e)
    case Success(client) =>
      var container := ContainerName(env);
      // An exception from create_container (the container already exists)
      // is swallowed: both outcomes go on to the upload.
      match sdk.createContainer(client.connectionString, container)
      case Completed => UploadBlob(file, sdk, client, container, uniqueFilename, originalFilename)
      case Raised(_) => UploadBlob(file, sdk, client, container, uniqueFilename, originalFilename)
  }

  function UploadBlob(file: FileStorage, sdk: BlobSdk, client: BlobServiceClient, container: string,
                      uniqueFilename: string, originalFilename: string): (r: Response)
    ensures r.status in {201, 500}
    ensures r.status == 500 ==> r.body.Keys == {"error"}
    ensures r.status == 201 ==> r.body.Keys == CreatedFields
  {
    match sdk.uploadBlob(client.connectionString, container, uniqueFilename, file.content)
    case Raised(e) => Failed(e)
    case Completed =>
      Response(201, map[
        "message" := UploadedMessage,
        "blob_name" := uniqueFilename,
        "original_filename" := originalFilename,
        "blob_url" := sdk.blobUrl(client.connectionString, container, uniqueFilename),
        "container" := container])
  }

  /** upload_document: `secureFilename` stands for werkzeug's
      `secure_filename` and `id` for the text of a fresh `uuid4()`. */
  function UploadDocument(request: UploadRequest, env: Environment, sdk: BlobSdk,
                          secureFilename: string -> string, id: string, extensionOrder: seq<string>): (r: Response)
    ensures r.status in {201, 400, 500}
    ensures r.status != 201 ==> r.body.Keys == {"error"}
    ensures r.status == 201 ==> r.body.Keys == CreatedFields
  {
    match Validate(request, extensionOrder)
    case Failure(message) => ErrorResponse(400, message)
    case Success(file) => Store(file, env, sdk, secureFilename(file.filename), id)
  }

  // ---------------------------------------------------------------------
  // Properties

  /** Without a `file` part the answer is 400 "No file provided", whatever
      else the request, the configuration or the storage would do. */
  lemma UploadWithoutFile(request: UploadRequest, env: Environment, sdk: BlobSdk,
                          secureFilename: string -> string, id: string, extensionOrder: seq<string>)
    requires "file" !in request.files
    ensures UploadDocument(request, env, sdk, secureFilename, id, extensionOrder) == ErrorResponse(400, NoFileMessage)
  {
  }

  /** An empty filename is answered with 400 "No file selected". */
  lemma UploadWithEmptyName(request: UploadRequest, env: Environment, sdk: BlobSdk,
                            secureFilename: string -> string, id: string, extensionOrder: seq<string>)
    requires "file" in request.files && request.files["file"].filename == ""
    ensures UploadDocument(request, env, sdk, secureFilename, id, extensionOrder) == ErrorResponse(400, NoSelectionMessage)
  {
  }

  /** The refusal message begins "File type not allowed" and names every
      extension the iteration order lists. */
  lemma NotAllowedMessageNamesAll(extensionOrder: seq<string>)
    ensures StartsWith(NotAllowedMessage(extensionOrder), "File type not allowed")
    ensures forall ext :: ext in extensionOrder ==> Occurs(ext, NotAllowedMessage(extensionOrder))
  {
    var message := NotAllowedMessage(extensionOrder);
    assert message[..|NotAllowedPrefix|] == NotAllowedPrefix;
    forall ext | ext in extensionOrder
      ensures Occurs(ext, message)
    {
      var i :| 0 <= i < |extensionOrder| && extensionOrder[i] == ext;
      var k := JoinOffset(extensionOrder, ", ", i);
      OccursAfterPrefix(ext, NotAllowedPrefix, Join(extensionOrder, ", "), k);
    }
  }

  /** An occurrence stays an occurrence, shifted, once a prefix is put in front. */
  lemma OccursAfterPrefix(sub: string, prefix: string, s: string, k: nat)
    requires OccursAt(sub, s, k)
    ensures OccursAt(sub, prefix + s, |prefix| + k)
  {
    assert forall j :: |prefix| + k <= j < |prefix| + k + |sub| ==> (prefix + s)[j] == s[j - |prefix|];
  }

  /** A filename refused by allowed_file is answered with 400 and a message
      that begins "File type not allowed" and names every allowed extension. */
  lemma UploadWithRefusedExtension(request: UploadRequest, env: Environment, sdk: BlobSdk,
                                   secureFilename: string -> string, id: string, extensionOrder: seq<string>)
    requires "file" in request.files && request.files["file"].filename != ""
    requires !AllowedFile(request.files["file"].filename)
    requires forall ext :: ext in AllowedExtensions ==> ext in extensionOrder
    ensures var r := UploadDocument(request, env, sdk, secureFilename, id, extensionOrder);
      && r == ErrorResponse(400, NotAllowedMessage(extensionOrder))
      && StartsWith(r.body["error"], "File type not allowed")
      && forall ext :: ext in AllowedExtensions ==> Occurs(ext, r.body["error"])
  {
    NotAllowedMessageNamesAll(extensionOrder);
  }

  /** A 400 answer happens exactly when a client-side check fails, and it
      depends on nothing but the request: neither the configuration, nor the
      storage SDK, nor the name helpers are consulted on that path. */
  lemma UploadBadRequestIsClientSide(request: UploadRequest, env: Environment, env': Environment,
                                     sdk: BlobSdk, sdk': BlobSdk,
                                     secureFilename: string -> string, secureFilename': string -> string,
                                     id: string, id': string, extensionOrder: seq<string>)
    ensures var r := UploadDocument(request, env, sdk, secureFilename, id, extensionOrder);
      && (r.status == 400 <==>
            "file" !in request.files || request.files["file"].filename == "" || !AllowedFile(request.files["file"].filename))
      && (r.status == 400 ==> r == UploadDocument(request, env', sdk', secureFilename', id', extensionOrder))
  {
  }

  /** With a valid file but no connection string the answer is 500 with the
      configuration error's message. */
  lemma UploadNotConfigured(request: UploadRequest, env: Environment, sdk: BlobSdk,
                            secureFilename: string -> string, id: string, extensionOrder: seq<string>)
    requires Validate(request, extensionOrder).Success?
    requires env.connectionString.None? || env.connectionString.value == ""
    ensures UploadDocument(request, env, sdk, secureFilename, id, extensionOrder) == ErrorResponse(500, NotConfiguredMessage)
  {
  }

  /** Every answer is 201, 400 or 500, and a 500 only comes after all three
      client-side checks have passed. */
  lemma UploadServerErrorAfterValidation(request: UploadRequest, env: Environment, sdk: BlobSdk,
                                         secureFilename: string -> string, id: string, extensionOrder: seq<string>)
    ensures var r := UploadDocument(request, env, sdk, secureFilename, id, extensionOrder);
      && r.status in {201, 400, 500}
      && (r.status == 500 ==> Validate(request, extensionOrder).Success? && "file" in request.files
                              && AllowedFile(request.files["file"].filename))
  {
  }

  /** A storage failure during the upload gives 500, never 400: a ValueError
      with its own message, any other exception as "Failed to upload file: ...". */
  lemma UploadStorageFailure(request: UploadRequest, env: Environment, sdk: BlobSdk,
                             secureFilename: string -> string, id: string, extensionOrder: seq<string>, e: Exception)
    requires Validate(request, extensionOrder).Success?
    requires env.connectionString.Some? && env.connectionString.value != ""
    requires sdk.fromConnectionString(env.connectionString.value).Completed?
    requires sdk.uploadBlob(env.connectionString.value, ContainerName(env),
                            BlobName(id, secureFilename(request.files["file"].filename)),
                            request.files["file"].content) == Raised(e)
    ensures var r := UploadDocument(request, env, sdk, secureFilename, id, extensionOrder);
      && r.status == 500
      && (e.OtherException? ==> r.body["error"] == UploadFailedPrefix + e.message)
      && (e.ValueError? ==> r.body["error"] == e.message)
  {
    var conn := env.connectionString.value;
    match sdk.createContainer(conn, ContainerName(env))
    case Completed =>
    case Raised(_) =>
  }

  /** A connection string the SDK refuses (`from_connection_string` raises)
      gives 500 through the same two `except` branches: a ValueError with its
      own message, any other exception as "Failed to upload file: ...". */
  lemma UploadClientRefused(request: UploadRequest, env: Environment, sdk: BlobSdk,
                            secureFilename: string -> string, id: string, extensionOrder: seq<string>, e: Exception)
    requires "file" in request.files && request.files["file"].filename != ""
    requires AllowedFile(request.files["file"].filename)
    requires env.connectionString.Some? && env.connectionString.value != ""
    requires sdk.fromConnectionString(env.connectionString.value) == Raised(e)
    ensures var r := UploadDocument(request, env, sdk, secureFilename, id, extensionOrder);
      && r.status == 500
      && r.body.Keys == {"error"}
      && (e.OtherException? ==> r.body["error"] == UploadFailedPrefix + e.message)
      && (e.ValueError? ==> r.body["error"] == e.message)
  {
  }

  /** Whether create_container completes or raises never changes the answer. */
  lemma UploadIgnoresCreateContainer(request: UploadRequest, env: Environment, sdk: BlobSdk,
                                     createContainer: (string, string) -> Outcome,
                                     secureFilename: string -> string, id: string, extensionOrder: seq<string>)
    ensures UploadDocument(request, env, sdk.(createContainer := createContainer), secureFilename, id, extensionOrder)
         == UploadDocument(request, env, sdk, secureFilename, id, extensionOrder)
  {
    match Validate(request, extensionOrder)
    case Failure(_) =>
    case Success(file) =>
      match GetBlobServiceClient(env.connectionString, sdk)
      case Failure(_) =>
      case Success(client) =>
        match createContainer(client.connectionString, ContainerName(env))
        case Completed =>
        case Raised(_) =>
  }

  /** When every step succeeds the answer is 201: a `file` part with an
      allowed name, a non-empty connection string the SDK accepts, and an
      upload that completes. */
  lemma UploadSucceeds(request: UploadRequest, env: Environment, sdk: BlobSdk,
                       secureFilename: string -> string, id: string, extensionOrder: seq<string>)
    ensures
      && "file" in request.files
      && AllowedFile(request.files["file"].filename)
      && env.connectionString.Some? && env.connectionString.value != ""
      && sdk.fromConnectionString(env.connectionString.value).Completed?
      && sdk.uploadBlob(env.connectionString.value, ContainerName(env),
                        BlobName(id, secureFilename(request.files["file"].filename)),
                        request.files["file"].content).Completed?
      ==> UploadDocument(request, env, sdk, secureFilename, id, extensionOrder).status == 201
  {
    if "file" in request.files && env.connectionString.Some? {
      match sdk.createContainer(env.connectionString.value, ContainerName(env))
      case Completed =>
      case Raised(_) =>
    }
  }

  /** A 201 answer carries `blob_name == id + "_" + secured name`, the secured
      (not the raw) filename, the configured container, and the URL the SDK
      gives for that very blob; the upload itself went to that container
      under that name. */
  lemma UploadCreatedShape(request: UploadRequest, env: Environment, sdk: BlobSdk,
                           secureFilename: string -> string, id: string, extensionOrder: seq<string>)
    ensures var r := UploadDocument(request, env, sdk, secureFilename, id, extensionOrder);
      r.status == 201 ==>
        && "file" in request.files
        && AllowedFile(request.files["file"].filename)
        && env.connectionString.Some? && env.connectionString.value != ""
        && var original := secureFilename(request.files["file"].filename);
           var name := id + "_" + original;
           var conn := env.connectionString.value;
        && sdk.uploadBlob(conn, ContainerName(env), name, request.files["file"].content).Completed?
        && r.body == map[
             "message" := UploadedMessage,
             "blob_name" := name,
             "original_filename" := original,
             "blob_url" := sdk.blobUrl(conn, ContainerName(env), name),
             "container" := ContainerName(env)]
  {
    match Validate(request, extensionOrder)
    case Failure(_) =>
    case Success(file) =>
      match GetBlobServiceClient(env.connectionString, sdk)
      case Failure(_) =>
      case Success(client) =>
        match sdk.createContainer(client.connectionString, ContainerName(env))
        case Completed =>
        case Raised(_) =>
  }

  /** For identifiers of one fixed length (a uuid4 is always 36 characters)
      the blob name determines both the identifier and the secured name. */
  lemma {:induction false} BlobNameInjective(id: string, id': string, name: string, name': string)
    requires |id| == |id'|
    ensures BlobName(id, name) == BlobName(id', name') <==> id == id' && name == name'
  {
    if BlobName(id, name) == BlobName(id', name') {
      assert id == BlobName(id, name)[..|id|];
      assert id' == BlobName(id', name')[..|id'|];
      assert name == BlobName(id, name)[|id| + 1..];
      assert name' == BlobName(id', name')[|id'| + 1..];
    }
  }

  /** Two successful uploads of the same file under distinct identifiers of
      equal length get distinct blob names. */
  lemma UploadDistinctIds(request: UploadRequest, env: Environment, sdk: BlobSdk,
                          secureFilename: string -> string, id: string, id': string, extensionOrder: seq<string>)
    requires |id| == |id'| && id != id'
    ensures var r := UploadDocument(request, env, sdk, secureFilename, id, extensionOrder);
            var r' := UploadDocument(request, env, sdk, secureFilename, id', extensionOrder);
      r.status == 201 && r'.status == 201 ==>
        "blob_name" in r.body && "blob_name" in r'.body && r.body["blob_name"] != r'.body["blob_name"]
  {
    UploadCreatedShape(request, env, sdk, secureFilename, id, extensionOrder);
    UploadCreatedShape(request, env, sdk, secureFilename, id', extensionOrder);
    if "file" in request.files {
      var original := secureFilename(request.files["file"].filename);
      BlobNameInjective(id, id', original, original);
    }
  }
}
