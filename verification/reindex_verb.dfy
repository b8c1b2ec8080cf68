/** The `ros2 bag reindex` verb: the values its compression options may take
    and the one check it makes before handing the request on. */
module ReindexVerb {
  import opened Optional

  const DefaultStorage: string := "sqlite3"
  const DefaultCompressionFormat: string := ""
  const DefaultCompressionMode: string := "none"

  /** `--compression-format` accepts only "zstd"; the empty default is never
      checked against the choices. */
  predicate PermittedFormat(fmt: string) {
    fmt == DefaultCompressionFormat || fmt == "zstd"
  }

  predicate PermittedMode(mode: string) {
    mode == "none" || mode == "file" || mode == "message"
  }

  /** The parsed command line. */
  datatype VerbArgs = VerbArgs(
    bagFile: string,
    storage: string,
    compressionFormat: string,
    compressionMode: string,
    testOutputDir: Option<string>)

  /** The arguments of the call to the storage-specific `reindex`. */
  datatype ReindexRequest = ReindexRequest(
    uri: string,
    storageId: string,
    compressionFmt: string,
    compressionMode: string,
    testOutputDir: Option<string>)

  /** Either the verb prints an error and stops, or it calls `reindex`. */
  datatype VerbResult = InvalidChoice | Dispatched(request: ReindexRequest)

  /** Python truthiness of a string. */
  predicate NonEmpty(s: string) {
    |s| > 0
  }

  /** `ReindexVerb.main`: a compression format without a compression mode is
      refused; anything else, file mode included, is passed on unchanged. */
  function Main(args: VerbArgs): (r: VerbResult)
    ensures r.InvalidChoice? <==> NonEmpty(args.compressionFormat) && args.compressionMode == "none"
    ensures r.Dispatched? ==>
      && r.request.uri == args.bagFile
      && r.request.storageId == args.storage
      && r.request.compressionFmt == args.compressionFormat
      && r.request.compressionMode == args.compressionMode
      && r.request.testOutputDir == args.testOutputDir
  {
    if NonEmpty(args.compressionFormat) && args.compressionMode == "none" then
      InvalidChoice
    else
      Dispatched(ReindexRequest(
        args.bagFile, args.storage, args.compressionFormat, args.compressionMode, args.testOutputDir))
  }

  /** Among the permitted option values, the only refused pair is a "zstd"
      format with mode "none"; in particular file mode is never refused. */
  lemma RefusedPermittedPair(args: VerbArgs)
    requires PermittedFormat(args.compressionFormat) && PermittedMode(args.compressionMode)
    ensures Main(args).InvalidChoice? <==> args.compressionFormat == "zstd" && args.compressionMode == "none"
    ensures args.compressionMode == "file" ==> Main(args).Dispatched?
  {
  }

  /** Without a compression format the verb always proceeds, whatever the mode. */
  lemma EmptyFormatProceeds(args: VerbArgs)
    requires args.compressionFormat == ""
    ensures Main(args) == Dispatched(ReindexRequest(
      args.bagFile, args.storage, "", args.compressionMode, args.testOutputDir))
  {
  }

  /** The default options pass the check. */
  lemma DefaultsProceed(bagFile: string, testOutputDir: Option<string>)
    ensures PermittedFormat(DefaultCompressionFormat) && PermittedMode(DefaultCompressionMode)
    ensures Main(VerbArgs(bagFile, DefaultStorage, DefaultCompressionFormat, DefaultCompressionMode, testOutputDir)).Dispatched?
  {
  }
}
