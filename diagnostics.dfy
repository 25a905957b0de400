/** Translation of the scanner's issues into editor diagnostics, each carrying
    one related-information entry with the remediation advice for its issue id. */
module DiagnosticMapper {
  import opened Wrappers

  // ---- The scanner's issue records (only the fields the server reads) ----

  /** Where the scanner found an issue: a 1-based line and a 0-based column. */
  datatype IssueLocation = IssueLocation(line: int, column: int)

  datatype Issue = Issue(
    id: string,
    description: string,
    file: string,
    sample: Option<string>,
    location: IssueLocation)

  // ---- The protocol's diagnostic records ----

  /** A 0-based line and character. */
  datatype Position = Position(line: int, character: int)

  datatype Range = Range(start: Position, end: Position)

  datatype Location = Location(uri: string, range: Range)

  datatype DiagnosticRelatedInformation = DiagnosticRelatedInformation(
    location: Location,
    message: string)

  datatype DiagnosticSeverity = Error | Warning | Information | Hint

  datatype Diagnostic = Diagnostic(
    severity: DiagnosticSeverity,
    range: Range,
    message: string,
    source: string,
    relatedInformation: seq<DiagnosticRelatedInformation>)

  /** The static advice table, keyed by issue id. */
  type RemediationTable = map<string, string>

  /** The file name the scanner reports for findings without a source location. */
  const NotApplicable := "N/A"

  const RemediationPrefix := "Remediation: "

  /** An issue gets a diagnostic when it names a real file and has a non-empty
      sample (an absent or empty sample is falsy in the source's test). */
  predicate Reportable(issue: Issue)
  {
    issue.file != NotApplicable && issue.sample.Some? && issue.sample.value != ""
  }

  /** The related-information text: the advice behind a prefix when the table
      has non-empty advice for `id`, and the empty string otherwise. */
  function RemediationMessage(table: RemediationTable, id: string): (m: string)
    ensures m == "" <==> id !in table || table[id] == ""
    ensures m != "" ==> m == RemediationPrefix + table[id]
  {
    if id in table && table[id] != "" then RemediationPrefix + table[id] else ""
  }

  /** The range covering `sample` at the scanner's location, on one line. */
  function SampleRange(location: IssueLocation, sample: string): (r: Range)
    ensures r.start.line == r.end.line == location.line - 1
    ensures r.start.character == location.column
    ensures r.end.character - r.start.character == |sample|
  {
    Range(Position(location.line - 1, location.column),
          Position(location.line - 1, location.column + |sample|))
  }

  /** The shape every produced diagnostic has. */
  predicate WellFormed(d: Diagnostic, uri: string)
  {
    && d.severity == Warning
    && d.range.start.line == d.range.end.line
    && d.range.start.character < d.range.end.character
    && |d.relatedInformation| == 1
    && d.relatedInformation[0].location == Location(uri, d.range)
  }

  /** The diagnostic for one reportable issue of the document `uri`. */
  function ToDiagnostic(issue: Issue, uri: string, table: RemediationTable): (d: Diagnostic)
    requires Reportable(issue)
    ensures WellFormed(d, uri)
    ensures d.range == SampleRange(issue.location, issue.sample.value)
    ensures d.message == issue.id && d.source == issue.description
    ensures d.relatedInformation[0].message == RemediationMessage(table, issue.id)
  {
    var range := SampleRange(issue.location, issue.sample.value);
    Diagnostic(Warning, range, issue.id, issue.description,
               [DiagnosticRelatedInformation(Location(uri, range), RemediationMessage(table, issue.id))])
  }

  /** The diagnostics for a whole scan, in the order the issues came. */
  function MapIssues(issues: seq<Issue>, uri: string, table: RemediationTable): (r: seq<Diagnostic>)
    ensures |r| <= |issues|
    ensures forall k :: 0 <= k < |r| ==> WellFormed(r[k], uri)
  {
    if issues == [] then []
    else
      var init := MapIssues(issues[..|issues| - 1], uri, table);
      var last := issues[|issues| - 1];
      if Reportable(last) then init + [ToDiagnostic(last, uri, table)] else init
  }

  /** The positions of the reportable issues, in increasing order. */
  function ReportableIndices(issues: seq<Issue>): (idx: seq<nat>)
    ensures |idx| <= |issues|
    ensures forall k :: 0 <= k < |idx| ==> idx[k] < |issues| && Reportable(issues[idx[k]])
    ensures forall k, l :: 0 <= k < l < |idx| ==> idx[k] < idx[l]
    ensures forall j :: 0 <= j < |issues| && Reportable(issues[j]) ==> j in idx
  {
    if issues == [] then []
    else
      var n := |issues| - 1;
      var init := ReportableIndices(issues[..n]);
      if Reportable(issues[n]) then init + [n] else init
  }

  /** The mapper keeps exactly the reportable issues, each once, in order: the
      k-th diagnostic is the one for the k-th reportable issue. */
  lemma {:induction false} MapIssuesFollowsReportable(issues: seq<Issue>, uri: string, table: RemediationTable)
    ensures |MapIssues(issues, uri, table)| == |ReportableIndices(issues)|
    ensures forall k :: 0 <= k < |ReportableIndices(issues)| ==>
      MapIssues(issues, uri, table)[k] == ToDiagnostic(issues[ReportableIndices(issues)[k]], uri, table)
  {
    if issues != [] {
      var n := |issues| - 1;
      var init := issues[..n];
      MapIssuesFollowsReportable(init, uri, table);
      var r0, idx0 := MapIssues(init, uri, table), ReportableIndices(init);
      var r, idx := MapIssues(issues, uri, table), ReportableIndices(issues);
      if Reportable(issues[n]) {
        assert r == r0 + [ToDiagnostic(issues[n], uri, table)];
        assert idx == idx0 + [n];
      } else {
        assert r == r0;
        assert idx == idx0;
      }
      forall k | 0 <= k < |idx| ensures r[k] == ToDiagnostic(issues[idx[k]], uri, table) {
        if k < |idx0| {
          assert init[idx0[k]] == issues[idx0[k]];
        }
      }
    }
  }

  /** Scanning two batches of issues one after the other gives the diagnostics
      of the first batch followed by those of the second. */
  lemma {:induction false} MapIssuesAppend(a: seq<Issue>, b: seq<Issue>, uri: string, table: RemediationTable)
    ensures MapIssues(a + b, uri, table) == MapIssues(a, uri, table) + MapIssues(b, uri, table)
  {
    if b == [] {
      assert a + b == a;
    } else {
      var n := |b| - 1;
      MapIssuesAppend(a, b[..n], uri, table);
      assert (a + b)[..|a + b| - 1] == a + b[..n];
      assert (a + b)[|a + b| - 1] == b[n];
      var ra, rb0 := MapIssues(a, uri, table), MapIssues(b[..n], uri, table);
      if Reportable(b[n]) {
        var d := ToDiagnostic(b[n], uri, table);
        assert MapIssues(a + b, uri, table) == (ra + rb0) + [d];
        assert MapIssues(b, uri, table) == rb0 + [d];
      } else {
        assert MapIssues(a + b, uri, table) == ra + rb0;
        assert MapIssues(b, uri, table) == rb0;
      }
    }
  }

  /** An issue without a file or without a sample contributes nothing; any other
      issue contributes exactly its own diagnostic. */
  lemma SingleIssue(issue: Issue, uri: string, table: RemediationTable)
    ensures !Reportable(issue) <==> MapIssues([issue], uri, table) == []
    ensures Reportable(issue) ==> MapIssues([issue], uri, table) == [ToDiagnostic(issue, uri, table)]
  {
    assert [issue][..0] == [];
  }

  /** The `forEach`/`push` loop of the source, proved to build `MapIssues`. */
  method CollectDiagnostics(issues: seq<Issue>, uri: string, table: RemediationTable)
    returns (diagnostics: seq<Diagnostic>)
    ensures diagnostics == MapIssues(issues, uri, table)
  {
    diagnostics := [];
    var i := 0;
    while i < |issues|
      invariant 0 <= i <= |issues|
      invariant diagnostics == MapIssues(issues[..i], uri, table)
    {
      var issue := issues[i];
      if issue.file != NotApplicable && issue.sample.Some? && issue.sample.value != "" {
        var diagnostic := Diagnostic(
          Warning,
          Range(Position(issue.location.line - 1, issue.location.column),
                Position(issue.location.line - 1, issue.location.column + |issue.sample.value|)),
          issue.id,
          issue.description,
          []);
        var advice := if issue.id in table && table[issue.id] != "" then RemediationPrefix + table[issue.id] else "";
        diagnostic := diagnostic.(relatedInformation :=
          [DiagnosticRelatedInformation(Location(uri, diagnostic.range), advice)]);
        diagnostics := diagnostics + [diagnostic];
      }
      assert issues[..i + 1][..i] == issues[..i];
      i := i + 1;
    }
    assert issues[..i] == issues;
  }

  // ---- Worked examples ----

  /** An issue on line 5, column 10 with sample "eval(x)" covers characters
      10 to 17 of the 0-based line 4. */
  lemma ExampleRange()
    ensures SampleRange(IssueLocation(5, 10), "eval(x)") == Range(Position(4, 10), Position(4, 17))
  {
  }

  /** Known advice is prefixed; an unknown id gets the empty string. */
  lemma ExampleRemediation()
    ensures RemediationMessage(map["E001" := "Use contextIsolation"], "E001") == "Remediation: Use contextIsolation"
    ensures RemediationMessage(map["E001" := "Use contextIsolation"], "E002") == ""
  {
  }
}
