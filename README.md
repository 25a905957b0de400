# electrolint language server, modelled in Dafny

The electrolint language server connects an editor to the Electronegativity
scanner for Electron applications. When a document is saved, the server:

- strips the `file://` scheme from the document's URI;
- derives the path of a results file next to the document;
- calls the scanner;
- turns each issue that names a real file and has a non-empty sample into a
  Warning diagnostic; other issues are dropped. Each diagnostic carries one
  related-information entry with the remediation advice for that issue's id.

The server also keeps two things for the lifetime of the connection:

- the capability flags negotiated in the initialize handshake;
- a settings cache keyed by document URI, with a global fallback.

The model has one module per component:

| module | file | flavour |
|---|---|---|
| `Capabilities` | capabilities.dfy | functions: the three capability flags read from optional nested fields, and what the initialize result advertises |
| `PosixPath` | posix_path.dfy | functions: POSIX `dirname`, `basename`, `extname`, `basename(p, extname(p))` and `resolve` (segment normalisation), with lemmas |
| `PathResolver` | path_resolver.dfy | functions: the platform-dependent scheme stripping and the results-file path, with lemmas |
| `DiagnosticMapper` | diagnostics.dfy | a specification function `MapIssues` with lemmas, and the `forEach`/`push` loop as a method proved equal to it |
| `Analysis` | analysis.dfy | one save-triggered run: scanner options, then publication or silence |
| `ServerState` | server_state.dfy | a class: capability flags, `globalSettings`, and the `documentSettings` map updated in place |
| `Wrappers` | wrappers.dfy | `Option` and `Result` |

Inputs the model takes as parameters:

- the host platform (`os.platform()`);
- the working directory used by `path.resolve` (`process.cwd()`, always absolute);
- the percent-decoded URI;
- the scanner's outcome;
- the remediation table;
- the settings a configuration request would answer.

Behaviour a reader might not expect, which the model follows:

- The related-information message is `"Remediation: "` followed by the advice, not the bare advice.
- The related-information entry is attached whatever the client's related-information capability says. That flag is computed but never read.
- The strip pattern is `^file?:` followed by slashes, so `fil://` is stripped as well as `file://`.
- A configuration change empties the cache only when the client has the configuration capability. Without it, the change replaces the global settings and leaves the cache alone.

## Model

| member | source | states |
|---|---|---|
| `Capabilities.HasConfigurationCapability` | server/src/server.ts:53-55 | true exactly when `workspace` is present and its `configuration` is `true`; an absent object or field gives false |
| `Capabilities.HasWorkspaceFolderCapability` | server/src/server.ts:56-58 | true exactly when `workspace` is present and its `workspaceFolders` is `true` |
| `Capabilities.HasDiagnosticRelatedInformationCapability` | server/src/server.ts:59-63 | true exactly when `textDocument` and `publishDiagnostics` are both present and `relatedInformation` is `true` |
| `Capabilities.Negotiate` | server/src/server.ts:53-63 | the three flags, each computed by its own rule |
| `Capabilities.EmptyCapabilitiesDisableEverything` | server/src/server.ts:51-63 | a client that sends no capabilities gets all three fallbacks |
| `ServerState.LanguageServer.constructor` | server/src/server.ts:99-104 | start state: all flags false, global settings are the defaults (1000 problems), the cache is empty |
| `ServerState.LanguageServer.OnInitialize` | server/src/server.ts:53-80 | stores the negotiated flags; the result advertises incremental sync and completion with resolve; `workspace.workspaceFolders.supported = true` is present exactly when the workspace-folder flag is set; settings untouched |
| `ServerState.LanguageServer.GetDocumentSettings` | server/src/server.ts:120-133 | without the capability, returns the global settings, issues no request and leaves the cache alone. With it, a hit returns the cached entry and issues no request; a miss issues a request, caches its answer under this URI only, and returns it |
| `ServerState.LanguageServer.OnDidClose` | server/src/server.ts:135-138 | removes the closed URI's entry and no other |
| `ServerState.LanguageServer.OnDidChangeConfiguration` | server/src/server.ts:106-118 | with the capability, empties the cache and keeps the global settings. Without it, keeps the cache and sets the global settings to the pushed section, or to the defaults when the section is absent. A null or undefined `settings` without the capability throws, exactly then; nothing changes and nothing is revalidated. In every other case each open document is revalidated once |
| `ServerState.CloseAndReopen` | server/src/server.ts:120-138 | get, get, close, get: the second get is served from the cache, the third fetches again; two fetches in all |
| `ServerState.ChangeForcesRefetch` | server/src/server.ts:106-133 | after a configuration change with the capability, the next get issues a fetch and returns its answer |
| `PathResolver.StripFileScheme` | server/src/server.ts:148-155 | removes `file:` or `fil:` plus three slashes on win32, or plus two slashes elsewhere, only at position 0; otherwise returns the URI unchanged |
| `PathResolver.PosixKeepsLeadingSlash` | server/src/server.ts:153-155 | outside win32, `file:///p` and `fil:///p` both become `/p` |
| `PathResolver.Win32DropsThreeSlashes` | server/src/server.ts:151-152 | on win32, `file:///p` and `fil:///p` both become `p` |
| `PathResolver.NoSchemeNoChange` | server/src/server.ts:151-155 | a scheme that does not start the string is not removed |
| `PathResolver.OutputFilePath` | server/src/server.ts:157-159 | `resolve(dirname(input), basename(input, extname(input)) + "-electron-results.json")`; always an absolute path |
| `PathResolver.ResultsNameIsPlain` | server/src/server.ts:39 | the results-file name is one plain path segment |
| `PathResolver.OutputNextToInput` | server/src/server.ts:157-159 | for a file in a directory in normal form: the output path is the directory, "/", the file name without its extension, then the suffix; and the name without extension plus the extension is the file name |
| `PathResolver.OutputNextToInputAtRoot` | server/src/server.ts:157-159 | for a file directly under `/`: the output path is "/" plus the name without extension plus the suffix |
| `PathResolver.ExampleDocumentOnMacOs` | server/src/server.ts:147-159 | on darwin, `file:///Users/a/b.js` gives input `/Users/a/b.js` and output `/Users/a/b-electron-results.json` |
| `PathResolver.ExampleStem` | server/src/server.ts:158 | `extname("/Users/a/b.js")` is `.js` and the stem is `b` |
| `PosixPath.Dirname` | server/src/server.ts:157 | POSIX `dirname`: never empty; either `.`, `/`, `//` or a proper prefix of the path |
| `PosixPath.Basename` | server/src/server.ts:158 | POSIX `basename`: after trailing separators are trimmed, a suffix of the path that is preceded by a separator unless it is the whole path, and that contains no separator, i.e. the last segment |
| `PosixPath.Extname` | server/src/server.ts:158 | POSIX `extname`: a proper suffix of the basename. It is empty exactly when the basename is `..` or has no dot after its first character; otherwise it starts with the last dot and has no other dot |
| `PosixPath.Stem` | server/src/server.ts:158 | `basename(p, extname(p))`: the stem followed by the extension is the basename; it is non-empty when the basename is, and has no separator |
| `PosixPath.Resolve` | server/src/server.ts:159 | POSIX `resolve(dir, name)`, with the working directory in front of a relative `dir`; the result is absolute |
| `PosixPath.ResolveIsNormal` | server/src/server.ts:159 | `resolve` always yields `/` or a path whose segments are all kept as they are (no empty segment, `.` or `..`) |
| `PosixPath.ResolveInNormalDirectory` | server/src/server.ts:159 | resolving a plain name against a directory in normal form appends "/" and the name |
| `PosixPath.ResolveInRoot` | server/src/server.ts:159 | resolving a plain name against `/` gives `/name` |
| `PosixPath.DirnameBasenameSplit` | server/src/server.ts:157-158 | for `d + "/" + b`, with `d` neither empty nor `/` and `b` a segment: dirname is `d` and basename is `b` |
| `PosixPath.DirnameBasenameRoot` | server/src/server.ts:157-158 | for `/b`: dirname is `/` and basename is `b` |
| `PosixPath.Normalize` | server/src/server.ts:159 | the normalisation stack of `resolve`: every segment it keeps is one of its input's, and none is empty, `.` or `..` |
| `PosixPath.NormalizeKept` | server/src/server.ts:159 | normalisation leaves a list of kept segments unchanged |
| `PosixPath.NormalizeParentPops` | server/src/server.ts:159 | a `..` right after a plain segment cancels that segment |
| `PosixPath.NormalizeParentAtRoot` | server/src/server.ts:159 | a `..` directly under the root is dropped: `/..` normalises to the root |
| `PosixPath.NormalizeRooted` | server/src/server.ts:159 | the empty segment before an absolute path's first segment is skipped |
| `PosixPath.JoinSplit` | server/src/server.ts:159 | joining the segments of a path with "/" gives the path back |
| `PosixPath.SplitJoin` | server/src/server.ts:159 | splitting a join of separator-free segments gives the segments back |
| `PosixPath.Split` | server/src/server.ts:159 | `split('/')`: at least one segment, and no segment contains a separator |
| `DiagnosticMapper.RemediationMessage` | server/src/server.ts:192 | empty exactly when the table has no entry for the id or an empty one; otherwise `"Remediation: "` followed by the entry |
| `DiagnosticMapper.SampleRange` | server/src/server.ts:178-181 | start and end lie on line `location.line - 1`; the start character is `location.column`; the range is as wide as the sample |
| `DiagnosticMapper.ToDiagnostic` | server/src/server.ts:176-194 | severity Warning; message is the issue id; source is the issue description; a one-line range with end after start; exactly one related entry, whose location is the document's undecoded URI with the same range, and whose message is the remediation text |
| `DiagnosticMapper.MapIssues` | server/src/server.ts:172-198 | never longer than the input, and every diagnostic is well formed for the document's URI |
| `DiagnosticMapper.ReportableIndices` | server/src/server.ts:175 | the positions of exactly the issues with a real file and a non-empty sample, strictly increasing |
| `DiagnosticMapper.MapIssuesFollowsReportable` | server/src/server.ts:174-197 | the k-th diagnostic is the one for the k-th reportable issue: skipped issues yield nothing, every other issue yields exactly one diagnostic, and input order is kept |
| `DiagnosticMapper.MapIssuesAppend` | server/src/server.ts:174-197 | concatenating issue lists concatenates their diagnostics |
| `DiagnosticMapper.SingleIssue` | server/src/server.ts:175-196 | one issue yields no diagnostic exactly when its file is `N/A` or its sample is empty or absent; otherwise it yields its own diagnostic |
| `DiagnosticMapper.CollectDiagnostics` | server/src/server.ts:172-198 | the loop that pushes one diagnostic per reportable issue builds exactly `MapIssues` |
| `DiagnosticMapper.ExampleRange` | server/src/server.ts:178-181 | line 5, column 10, sample `eval(x)` gives the range (4,10) to (4,17) |
| `DiagnosticMapper.ExampleRemediation` | server/src/server.ts:192 | with table `{E001: "Use contextIsolation"}`, id E001 gets `Remediation: Use contextIsolation` and an unknown id gets the empty string |
| `Analysis.ScanOptionsFor` | server/src/server.ts:147-169 | the scanner reads the stripped path and writes to the results-file path, in tabular (non-SARIF) form, with no check subset |
| `Analysis.RunElectronegativity` | server/src/server.ts:145-204 | the scanner options as above. A rejection publishes nothing. A result publishes `MapIssues` of its issues for the original URI |

## Left out

- LSP transport and plumbing: `createConnection`, `TextDocuments`, `listen`, registering for configuration changes, and the workspace-folder and watched-file logging handlers. These belong to the `vscode-languageserver` library.
- `Analysis.RunElectronegativity`: the scanner is a foreign asynchronous call. Its outcome is a parameter, so the model does not tie the issues to the file that was scanned. Sending the diagnostics is represented by the returned `PublishDiagnosticsParams`.
- `decodeURIComponent`: the decoded URI is a parameter beside the original one.
- `os.platform()` and `process.cwd()` are parameters. The working directory is required to be absolute, as Node's always is.
- `PathResolver.OutputFilePath`: uses POSIX path semantics on every platform. On win32, Node's `path` uses backslashes and drive letters, and that is not modelled.
- Node's `path.basename(p, suffix)` is modelled only for `suffix = extname(p)`, the one use in the source (`PosixPath.Stem`). Its behaviour for other suffixes is not modelled.
- `DiagnosticMapper.SampleRange`: a sample's length is counted in Unicode characters. JavaScript counts UTF-16 code units, so samples with characters outside the Basic Multilingual Plane get a wider range in JavaScript.
- `DiagnosticMapper.RemediationMessage`: the table is a plain string map. In the source it is a JavaScript object, so an id such as `constructor` would find an inherited property. The table is loaded from a JSON file at initialisation; here it is a parameter.
- Asynchrony: cached settings are plain values, not pending promises. The race between two quick saves of one document is concurrency and is not modelled.
- A failing configuration request is not modelled: the fetched value is always supplied.
- The completion handlers are template stubs and are not part of the model.
- `maxNumberOfProblems` is stored but never used by the source, so there is nothing to specify about it.
- `getDocumentSettings` is never called anywhere in server.ts, so in the running server `documentSettings` is never filled. `ServerState.LanguageServer.GetDocumentSettings`, `ServerState.CloseAndReopen` and `ServerState.ChangeForcesRefetch` describe what the function does when called, not a path the server takes.
- `console.log` and `console.error` output.
