/** The command-line entry point: which reader `main` builds from its
    arguments, and what it prints to standard error and exits with. The
    outcomes of building the reader and of running the app enter as
    parameters; an exception raised there is caught by the handler
    around the whole body. */
module Cli {
  import opened Exceptions
  import opened Footer
  import S3Parquet
  import Tui

  datatype Option<T> = None | Some(value: T)

  /** Python truthiness of an optional string option: given and not empty. */
  predicate Truthy(s: Option<string>)
  {
    s.Some? && s.value != ""
  }

  predicate StartsWith(s: string, prefix: string)
  {
    |prefix| <= |s| && s[..|prefix|] == prefix
  }

  const S3_SCHEME: string := "s3://"
  const MISSING_CREDENTIALS: string := "Error: S3 access requires --access-key-id and --secret-access-key."
  const ERROR_PREFIX: string := "Error: "
  const EXIT_SUCCESS: int := 0
  const EXIT_FAILURE: int := 1

  /** The reader `main` constructs and the arguments it passes. */
  datatype ReaderRequest =
    | S3Request(fileUri: string, accessKeyId: string, secretAccessKey: string, endpointUrl: Option<string>)
    | LocalRequest(path: string)

  /** Either a reader to construct, or the refusal for missing credentials. */
  datatype Decision = Construct(request: ReaderRequest) | RejectMissingCredentials

  /** The file goes to object storage when it carries the `s3://` scheme or
      when both credentials are given; object storage without both
      credentials is refused; everything else is a local path. */
  function SelectReader(file: string, accessKeyId: Option<string>, secretAccessKey: Option<string>,
                        endpointUrl: Option<string>): (d: Decision)
    ensures d.RejectMissingCredentials? <==>
              StartsWith(file, S3_SCHEME) && !(Truthy(accessKeyId) && Truthy(secretAccessKey))
    ensures d.Construct? && d.request.S3Request? <==> Truthy(accessKeyId) && Truthy(secretAccessKey)
    ensures d.Construct? && d.request.LocalRequest? <==>
              !StartsWith(file, S3_SCHEME) && !(Truthy(accessKeyId) && Truthy(secretAccessKey))
    ensures d.Construct? && d.request.S3Request? ==>
              d.request == S3Request(file, accessKeyId.value, secretAccessKey.value, endpointUrl)
    ensures d.Construct? && d.request.LocalRequest? ==> d.request.path == file
  {
    var isS3 := StartsWith(file, S3_SCHEME) || (Truthy(accessKeyId) && Truthy(secretAccessKey));
    if isS3 then
      if !Truthy(accessKeyId) || !Truthy(secretAccessKey) then RejectMissingCredentials
      else Construct(S3Request(file, accessKeyId.value, secretAccessKey.value, endpointUrl))
    else Construct(LocalRequest(file))
  }

  /** What one invocation leaves behind: the exit status, the lines written
      to standard error, the readers constructed and whether the app was
      created and run. */
  datatype Outcome = Outcome(exitCode: int, stderr: seq<string>, readersConstructed: seq<ReaderRequest>,
                             appLaunched: bool)

  /** One run of `main`. `constructorRaises` is what constructing the
      reader raised, if anything; `appRaises` what creating or running the
      app raised. The refusal exits through `sys.exit(1)`, whose SystemExit
      is not an `Exception` and so passes the handler without a second
      message. */
  function Run(file: string, accessKeyId: Option<string>, secretAccessKey: Option<string>,
                endpointUrl: Option<string>, constructorRaises: Option<PyException>,
                appRaises: Option<PyException>): (o: Outcome)
    ensures o.exitCode == EXIT_SUCCESS || o.exitCode == EXIT_FAILURE
    ensures o.exitCode == EXIT_SUCCESS <==>
              SelectReader(file, accessKeyId, secretAccessKey, endpointUrl).Construct? &&
              constructorRaises.None? && appRaises.None?
    ensures o.exitCode == EXIT_SUCCESS <==> o.stderr == []
    ensures |o.stderr| <= 1 && |o.readersConstructed| <= 1
    ensures o.appLaunched <==> |o.readersConstructed| == 1 && constructorRaises.None?
    ensures SelectReader(file, accessKeyId, secretAccessKey, endpointUrl).RejectMissingCredentials? ==>
              o.stderr == [MISSING_CREDENTIALS] && o.readersConstructed == []
    ensures SelectReader(file, accessKeyId, secretAccessKey, endpointUrl).Construct? ==>
              o.readersConstructed == [SelectReader(file, accessKeyId, secretAccessKey, endpointUrl).request]
    ensures constructorRaises.Some? && o.readersConstructed != [] ==>
              o.stderr == [ERROR_PREFIX + constructorRaises.value.message]
    ensures SelectReader(file, accessKeyId, secretAccessKey, endpointUrl).Construct? &&
            constructorRaises.None? && appRaises.Some? ==>
              o.stderr == [ERROR_PREFIX + appRaises.value.message]
  {
    match SelectReader(file, accessKeyId, secretAccessKey, endpointUrl)
    case RejectMissingCredentials =>
      Outcome(EXIT_FAILURE, [MISSING_CREDENTIALS], [], false)
    case Construct(request) =>
      match constructorRaises
      case Some(e) => Outcome(EXIT_FAILURE, [ERROR_PREFIX + e.message], [request], false)
      case None =>
        match appRaises
        case Some(e) => Outcome(EXIT_FAILURE, [ERROR_PREFIX + e.message], [request], true)
        case None => Outcome(EXIT_SUCCESS, [], [request], true)
  }

  /** Credentials alone send a plain path to object storage, with the path
      as the URI. */
  lemma CredentialsSelectObjectStorage(file: string, key: string, secret: string, endpointUrl: Option<string>)
    requires key != "" && secret != ""
    ensures SelectReader(file, Some(key), Some(secret), endpointUrl) ==
            Construct(S3Request(file, key, secret, endpointUrl))
  {
  }

  /** A path without the scheme and without both credentials is opened
      locally, once, with that path; an empty credential counts as none. */
  lemma PlainPathOpensLocally(file: string, key: Option<string>, secret: Option<string>,
                              endpointUrl: Option<string>, appRaises: Option<PyException>)
    requires !StartsWith(file, S3_SCHEME)
    requires key == None || key == Some("") || secret == None || secret == Some("")
    ensures Run(file, key, secret, endpointUrl, None, appRaises).readersConstructed == [LocalRequest(file)]
  {
  }

  /** An `s3://` URI without both credentials is refused before any reader
      exists, with exactly the one message and exit status 1. */
  lemma SchemeWithoutCredentialsRefused(file: string, key: Option<string>, secret: Option<string>,
                                        endpointUrl: Option<string>, constructorRaises: Option<PyException>,
                                        appRaises: Option<PyException>)
    requires StartsWith(file, S3_SCHEME) && !(Truthy(key) && Truthy(secret))
    ensures var o := Run(file, key, secret, endpointUrl, constructorRaises, appRaises);
      o.exitCode == EXIT_FAILURE && o.stderr == [MISSING_CREDENTIALS] && o.readersConstructed == [] &&
      !o.appLaunched
  {
  }

  /** An object that does not parse as Parquet: the object-storage reader
      re-raises pyarrow's ArrowInvalid naming the URI, and `main` reports it
      after "Error: " and exits with 1. */
  lemma NotParquetReported(file: string, key: string, secret: string, endpointUrl: Option<string>,
                           download: Result<seq<bv8>>, parse: Result<FileMetadata>,
                           appRaises: Option<PyException>)
    requires key != "" && secret != ""
    requires S3Parquet.Open(file, download, parse).Err?
    requires S3Parquet.Open(file, download, parse).error.kind == ArrowInvalid
    ensures var o := Run(file, Some(key), Some(secret), endpointUrl,
                          Some(S3Parquet.Open(file, download, parse).error), appRaises);
      o.exitCode == EXIT_FAILURE && o.stderr == [ERROR_PREFIX + file + S3Parquet.NOT_PARQUET_SUFFIX]
  {
    assert ERROR_PREFIX + (file + S3Parquet.NOT_PARQUET_SUFFIX) == ERROR_PREFIX + file + S3Parquet.NOT_PARQUET_SUFFIX;
  }

  /** The Structure tab cannot be built for an object-storage reader: its
      `file_path` is the URI string, which has no `name`. */
  lemma S3StructureTabRaises(r: S3Parquet.S3ParquetReader)
    ensures Tui.StructureView(S3Parquet.View(r)).Err?
    ensures Tui.StructureView(S3Parquet.View(r)).error.kind == AttributeError
  {
  }
}
