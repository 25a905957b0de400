/** The capability negotiation of the initialize handshake: which optional
    client features the server relies on, and what it advertises back. */
module Capabilities {
  import opened Wrappers

  // ---- What the client sends (only the fields the server reads) ----

  datatype WorkspaceClientCapabilities = WorkspaceClientCapabilities(
    configuration: Option<bool>,
    workspaceFolders: Option<bool>)

  datatype PublishDiagnosticsClientCapabilities = PublishDiagnosticsClientCapabilities(
    relatedInformation: Option<bool>)

  datatype TextDocumentClientCapabilities = TextDocumentClientCapabilities(
    publishDiagnostics: Option<PublishDiagnosticsClientCapabilities>)

  datatype ClientCapabilities = ClientCapabilities(
    workspace: Option<WorkspaceClientCapabilities>,
    textDocument: Option<TextDocumentClientCapabilities>)

  /** The three flags the server keeps for the lifetime of the connection. */
  datatype Flags = Flags(
    configuration: bool,
    workspaceFolders: bool,
    relatedInformation: bool)

  /** JavaScript's `!!x` on an optional boolean field. */
  predicate Truthy(x: Option<bool>)
  {
    x.Some? && x.value
  }

  /** Does the client answer `workspace/configuration` requests? */
  function HasConfigurationCapability(caps: ClientCapabilities): (b: bool)
    ensures b <==> caps.workspace.Some? && caps.workspace.value.configuration == Some(true)
  {
    match caps.workspace
    case None => false
    case Some(w) => Truthy(w.configuration)
  }

  /** Does the client support workspace folders? */
  function HasWorkspaceFolderCapability(caps: ClientCapabilities): (b: bool)
    ensures b <==> caps.workspace.Some? && caps.workspace.value.workspaceFolders == Some(true)
  {
    match caps.workspace
    case None => false
    case Some(w) => Truthy(w.workspaceFolders)
  }

  /** Does the client show related information on diagnostics? */
  function HasDiagnosticRelatedInformationCapability(caps: ClientCapabilities): (b: bool)
    ensures b <==>
      && caps.textDocument.Some?
      && caps.textDocument.value.publishDiagnostics.Some?
      && caps.textDocument.value.publishDiagnostics.value.relatedInformation == Some(true)
  {
    match caps.textDocument
    case None => false
    case Some(td) =>
      match td.publishDiagnostics
      case None => false
      case Some(pd) => Truthy(pd.relatedInformation)
  }

  function Negotiate(caps: ClientCapabilities): (f: Flags)
    ensures f.configuration == HasConfigurationCapability(caps)
    ensures f.workspaceFolders == HasWorkspaceFolderCapability(caps)
    ensures f.relatedInformation == HasDiagnosticRelatedInformationCapability(caps)
  {
    Flags(HasConfigurationCapability(caps),
          HasWorkspaceFolderCapability(caps),
          HasDiagnosticRelatedInformationCapability(caps))
  }

  /** A client that sends no capabilities at all gets every fallback. */
  lemma EmptyCapabilitiesDisableEverything()
    ensures Negotiate(ClientCapabilities(None, None)) == Flags(false, false, false)
  {
  }

  // ---- What the server answers ----

  datatype TextDocumentSyncKind = SyncNone | SyncFull | SyncIncremental

  datatype CompletionOptions = CompletionOptions(resolveProvider: bool)

  datatype WorkspaceFoldersServerCapabilities = WorkspaceFoldersServerCapabilities(supported: bool)

  datatype WorkspaceServerCapabilities = WorkspaceServerCapabilities(
    workspaceFolders: Option<WorkspaceFoldersServerCapabilities>)

  datatype ServerCapabilities = ServerCapabilities(
    textDocumentSync: TextDocumentSyncKind,
    completionProvider: Option<CompletionOptions>,
    workspace: Option<WorkspaceServerCapabilities>)

  datatype InitializeResult = InitializeResult(capabilities: ServerCapabilities)

  /** What the server advertises: incremental sync, completion with resolve, and
      workspace-folder support exactly when the client has it. */
  predicate Advertises(result: InitializeResult, workspaceFolders: bool)
  {
    && result.capabilities.textDocumentSync == SyncIncremental
    && result.capabilities.completionProvider == Some(CompletionOptions(true))
    && (result.capabilities.workspace.Some? <==> workspaceFolders)
    && (workspaceFolders ==>
          result.capabilities.workspace.value.workspaceFolders ==
            Some(WorkspaceFoldersServerCapabilities(true)))
  }
}
