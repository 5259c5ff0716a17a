/** Shared settings of the backend: the storage configuration read from the
    environment, the extension allow-list and its validator, and the guard
    that refuses to build a storage client without a connection string. */
module Config {
  import opened Common

  /** Container used when AZURE_STORAGE_CONTAINER_NAME is not set. */
  const DefaultContainerName: string := "health-documents"

  /** The extensions an upload may carry, all lower case. */
  const AllowedExtensions: set<string> := {"pdf", "doc", "docx", "txt", "jpg", "jpeg", "png"}

  const NotConfiguredMessage: string := "Azure Storage connection string not configured"

  /** The two environment variables the backend reads; `None` is an unset
      variable, `Some("")` one that is set but empty. */
  datatype Environment = Environment(connectionString: Option<string>, containerName: Option<string>)

  /** `os.getenv('AZURE_STORAGE_CONTAINER_NAME', 'health-documents')`: the
      default applies only when the variable is unset. */
  function ContainerName(env: Environment): (name: string)
    ensures env.containerName.None? ==> name == DefaultContainerName
    ensures env.containerName.Some? ==> name == env.containerName.value
  {
    match env.containerName
    case None => DefaultContainerName
    case Some(v) => v
  }

  // ---------------------------------------------------------------------
  // allowed_file

  /** Python's `str.lower()` on one character, for the ASCII letters. */
  function LowerChar(c: char): char {
    if 'A' <= c <= 'Z' then (c as int + 32) as char else c
  }

  /** Python's `str.lower()`, character by character: no upper-case letter
      is left, each one becomes its lower-case letter, and every other
      character is kept. */
  function Lower(s: string): (r: string)
    ensures |r| == |s|
    ensures forall i :: 0 <= i < |s| ==> !('A' <= r[i] <= 'Z')
    ensures forall i :: 0 <= i < |s| ==>
      if 'A' <= s[i] <= 'Z' then r[i] as int == s[i] as int + 32 else r[i] == s[i]
  {
    seq(|s|, i requires 0 <= i < |s| => LowerChar(s[i]))
  }

  /** Index of the last '.' in `s`, if there is one. */
  function LastDot(s: string): (r: Option<nat>)
    ensures r.None? <==> '.' !in s
    ensures r.Some? ==> r.value < |s| && s[r.value] == '.' && '.' !in s[r.value + 1..]
  {
    if |s| == 0 then None
    else if s[|s| - 1] == '.' then Some(|s| - 1)
    else
      var r := LastDot(s[..|s| - 1]);
      if r.Some? then
        assert s[r.value + 1..] == s[..|s| - 1][r.value + 1..] + [s[|s| - 1]];
        r
      else r
  }

  /** Python's `s.rsplit('.', 1)`: the whole string when it has no dot,
      otherwise the text before and the text after its last dot. */
  function RSplitDot(s: string): (parts: seq<string>)
    ensures '.' !in s ==> parts == [s]
    ensures '.' in s ==> |parts| == 2 && parts[0] + "." + parts[1] == s && '.' !in parts[1]
  {
    match LastDot(s)
    case None => [s]
    case Some(i) =>
      assert s[..i] + "." + s[i + 1..] == s;
      [s[..i], s[i + 1..]]
  }

  /** `'.' in filename and filename.rsplit('.', 1)[1].lower() in ALLOWED_EXTENSIONS`.
      An accepted name has a dot followed by at least three characters, so it
      never ends in a dot. */
  predicate AllowedFile(filename: string)
    ensures AllowedFile(filename) ==>
      && '.' in filename
      && |filename| >= 4
      && filename[|filename| - 1] != '.'
  {
    '.' in filename &&
    var parts := RSplitDot(filename);
    var ext := Lower(parts[1]);
    assert ext in AllowedExtensions ==> |ext| >= 3;
    assert |filename| == |parts[0]| + 1 + |parts[1]|;
    assert |parts[1]| > 0 ==> filename[|filename| - 1] == parts[1][|parts[1]| - 1];
    ext in AllowedExtensions
  }

  // ---------------------------------------------------------------------
  // get_blob_service_client

  /** The storage SDK, reduced to what the backend observes of it. Each
      call either completes or raises; the connection string identifies
      the client a call is made through. */
  datatype BlobSdk = BlobSdk(
    fromConnectionString: string -> Outcome,
    createContainer: (string, string) -> Outcome,
    uploadBlob: (string, string, string, seq<byte>) -> Outcome,
    blobUrl: (string, string, string) -> string)

  /** A storage client built from a connection string. */
  datatype BlobServiceClient = BlobServiceClient(connectionString: string)

  /** Refuses with a ValueError when the connection string is absent or
      empty; otherwise builds the client, which the SDK may itself refuse. */
  function GetBlobServiceClient(connectionString: Option<string>, sdk: BlobSdk): (r: Result<BlobServiceClient, Exception>)
    ensures (connectionString.None? || connectionString.value == "") ==> r == Failure(ValueError(NotConfiguredMessage))
    ensures r.Success? <==>
      connectionString.Some? && connectionString.value != "" && sdk.fromConnectionString(connectionString.value).Completed?
    ensures r.Success? ==> r.value.connectionString == connectionString.value
    ensures r.Failure? && connectionString.Some? && connectionString.value != "" ==>
      sdk.fromConnectionString(connectionString.value) == Raised(r.error)
  {
    if connectionString.None? || connectionString.value == "" then
      Failure(ValueError(NotConfiguredMessage))
    else
      match sdk.fromConnectionString(connectionString.value)
      case Raised(e) => Failure(e)
      case Completed => Success(BlobServiceClient(connectionString.value))
  }

  // ---------------------------------------------------------------------
  // Properties of allowed_file

  lemma LowerPreservesDots(s: string)
    ensures '.' in Lower(s) <==> '.' in s
  {
    if '.' in s {
      var k :| 0 <= k < |s| && s[k] == '.';
      assert Lower(s)[k] == '.';
    }
  }

  lemma LowerIdempotent(s: string)
    ensures Lower(Lower(s)) == Lower(s)
  {
  }

  /** Splitting `stem + "." + ext` at its last dot gives back `stem` and
      `ext`, whatever dots `stem` holds, as long as `ext` holds none. */
  lemma {:induction false} RSplitDotOfJoin(stem: string, ext: string)
    requires '.' !in ext
    ensures RSplitDot(stem + "." + ext) == [stem, ext]
  {
    var s := stem + "." + ext;
    assert s[|stem|] == '.';
    var parts := RSplitDot(s);
    var n := |parts[1]|;
    assert parts[1] == s[|s| - n..] == ext;
    assert parts[0] == s[..|stem|] == stem;
  }

  /** The accepted filenames are exactly those whose text after the last
      dot, lowered, is one of the seven extensions. */
  lemma AllowedFileExactly(stem: string, ext: string)
    requires '.' !in ext
    ensures AllowedFile(stem + "." + ext) <==> Lower(ext) in AllowedExtensions
  {
    RSplitDotOfJoin(stem, ext);
  }

  /** A filename without a dot is always rejected. */
  lemma AllowedFileNeedsDot(filename: string)
    requires '.' !in filename
    ensures !AllowedFile(filename)
  {
  }

  /** Only the text after the last dot matters: replacing what comes before
      it never changes the verdict. */
  lemma AllowedFileIgnoresStem(stem: string, stem': string, ext: string)
    requires '.' !in ext
    ensures AllowedFile(stem + "." + ext) == AllowedFile(stem' + "." + ext)
  {
    AllowedFileExactly(stem, ext);
    AllowedFileExactly(stem', ext);
  }

  /** The check ignores case: two extensions that lower to the same text
      get the same verdict, in particular an extension and its lowered form. */
  lemma AllowedFileIgnoresCase(stem: string, ext: string, ext': string)
    requires '.' !in ext && '.' !in ext'
    requires Lower(ext) == Lower(ext')
    ensures AllowedFile(stem + "." + ext) == AllowedFile(stem + "." + ext')
    ensures AllowedFile(stem + "." + ext) == AllowedFile(stem + "." + Lower(ext))
  {
    AllowedFileExactly(stem, ext);
    AllowedFileExactly(stem, ext');
    LowerPreservesDots(ext);
    LowerIdempotent(ext);
    AllowedFileExactly(stem, Lower(ext));
  }

  /** A filename ending in a dot has an empty extension and is rejected. */
  lemma AllowedFileTrailingDot(stem: string)
    ensures !AllowedFile(stem + ".")
  {
    assert stem + "." == stem + "." + "";
    AllowedFileExactly(stem, "");
    assert Lower("") == "";
  }

  /** Every one of the seven extensions is accepted after any stem. */
  lemma AllowedFileAcceptsEachExtension(stem: string, ext: string)
    requires ext in AllowedExtensions
    ensures AllowedFile(stem + "." + ext)
  {
    assert Lower(ext) == ext;
    AllowedFileExactly(stem, ext);
  }

  lemma AllowedFileExampleNestedPdf()
    ensures AllowedFile("a.tar.pdf")
  {
    assert "a.tar.pdf" == "a.tar" + "." + "pdf";
    AllowedFileAcceptsEachExtension("a.tar", "pdf");
  }

  lemma AllowedFileExampleTrailingExe()
    ensures !AllowedFile("a.pdf.exe")
  {
    assert Lower("exe") == "exe";
    assert "exe" !in AllowedExtensions;
    assert "a.pdf.exe" == "a.pdf" + "." + "exe";
    AllowedFileExactly("a.pdf", "exe");
  }

  lemma AllowedFileExampleUpperPng()
    ensures AllowedFile("x.PNG")
  {
    var lowered := Lower("PNG");
    assert lowered[0] == 'p' && lowered[1] == 'n' && lowered[2] == 'g';
    assert lowered == "png";
    assert "x.PNG" == "x" + "." + "PNG";
    AllowedFileExactly("x", "PNG");
  }
}
