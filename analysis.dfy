/** One analysis run, triggered by a save: the scanner is called on the
    document's path, and its outcome becomes the diagnostics published for the
    document. The scanner itself is outside the model: its outcome is an input. */
module Analysis {
  import opened Wrappers
  import opened PosixPath
  import opened PathResolver
  import opened DiagnosticMapper

  /** The options the scanner is called with. */
  datatype ScanOptions = ScanOptions(
    input: string,
    output: string,
    isSarif: bool,
    customScan: seq<string>)

  /** What the scanner resolves with. */
  datatype ScanResult = ScanResult(issues: seq<Issue>)

  /** The diagnostics sent to the editor for one document. */
  datatype PublishDiagnosticsParams = PublishDiagnosticsParams(uri: string, diagnostics: seq<Diagnostic>)

  /** The scanner call for a document: its path with the scheme removed, the
      results file next to it, tabular (not SARIF) output and every check. */
  function ScanOptionsFor(decodedUri: string, platform: string, cwd: string): (o: ScanOptions)
    requires IsAbsolute(cwd)
    ensures o.input == StripFileScheme(decodedUri, platform)
    ensures o.output == OutputFilePath(cwd, o.input)
    ensures !o.isSarif && o.customScan == []
  {
    var input := StripFileScheme(decodedUri, platform);
    ScanOptions(input, OutputFilePath(cwd, input), false, [])
  }

  /** `runElectronegativity` for the document `uri`. `decodedUri` is the
      percent-decoded URI, `platform` the host platform, `cwd` the working
      directory, and `outcome` what the scanner settled with. A rejection is only
      logged: nothing is published. A result is published for the original,
      undecoded URI. */
  method RunElectronegativity(
    uri: string, decodedUri: string, platform: string, cwd: string,
    outcome: Result<ScanResult, string>, table: RemediationTable)
    returns (options: ScanOptions, published: Option<PublishDiagnosticsParams>)
    requires IsAbsolute(cwd)
    ensures options == ScanOptionsFor(decodedUri, platform, cwd)
    ensures published.None? <==> outcome.Failure?
    ensures outcome.Success? ==>
      && published.value.uri == uri
      && published.value.diagnostics == MapIssues(outcome.value.issues, uri, table)
  {
    var input := StripFileScheme(decodedUri, platform);
    var documentPath := Dirname(input);
    var resultsFileName := Stem(input);
    var outputFilePath := Resolve(cwd, documentPath, resultsFileName + ResultsFile);
    options := ScanOptions(input, outputFilePath, false, []);
    match outcome {
      case Failure(_) =>
        published := None;
      case Success(result) =>
        var diagnostics := CollectDiagnostics(result.issues, uri, table);
        published := Some(PublishDiagnosticsParams(uri, diagnostics));
    }
  }
}
