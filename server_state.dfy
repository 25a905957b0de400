/** The server's process-wide state: the three capability flags negotiated at
    initialisation, the global settings, and the per-document settings cache. */
module ServerState {
  import opened Wrappers
  import opened Capabilities

  /** The one recognised option; it is stored but never enforced. */
  datatype Settings = Settings(maxNumberOfProblems: int)

  const DefaultSettings := Settings(1000)

  class LanguageServer {
    var hasConfigurationCapability: bool
    var hasWorkspaceFolderCapability: bool
    var hasDiagnosticRelatedInformationCapability: bool
    /** Used when the client cannot answer configuration requests. */
    var globalSettings: Settings
    /** The settings of each open document, keyed by its URI. */
    var documentSettings: map<string, Settings>

    /** The state when the server starts, before the initialize handshake. */
    constructor ()
      ensures !hasConfigurationCapability
      ensures !hasWorkspaceFolderCapability
      ensures !hasDiagnosticRelatedInformationCapability
      ensures globalSettings == DefaultSettings
      ensures documentSettings == map[]
    {
      hasConfigurationCapability := false;
      hasWorkspaceFolderCapability := false;
      hasDiagnosticRelatedInformationCapability := false;
      globalSettings := DefaultSettings;
      documentSettings := map[];
    }

    /** The initialize handshake: records the client's capabilities and answers
        with the server's, adding workspace-folder support only when the client
        has it. */
    method OnInitialize(caps: ClientCapabilities) returns (result: InitializeResult)
      modifies this
      ensures Flags(hasConfigurationCapability, hasWorkspaceFolderCapability,
                    hasDiagnosticRelatedInformationCapability) == Negotiate(caps)
      ensures Advertises(result, Negotiate(caps).workspaceFolders)
      ensures globalSettings == old(globalSettings)
      ensures documentSettings == old(documentSettings)
    {
      hasConfigurationCapability := HasConfigurationCapability(caps);
      hasWorkspaceFolderCapability := HasWorkspaceFolderCapability(caps);
      hasDiagnosticRelatedInformationCapability := HasDiagnosticRelatedInformationCapability(caps);

      result := InitializeResult(ServerCapabilities(
        SyncIncremental,
        Some(CompletionOptions(true)),
        None));
      if hasWorkspaceFolderCapability {
        result := result.(capabilities := result.capabilities.(
          workspace := Some(WorkspaceServerCapabilities(Some(WorkspaceFoldersServerCapabilities(true))))));
      }
    }

    /** The settings for the document `resource`. Without the configuration
        capability these are the global settings. With it, a cached entry is
        returned as is; on a miss a configuration request is issued, and its
        answer `fetched` is cached and returned. `requested` tells whether the
        request was issued. */
    method GetDocumentSettings(resource: string, fetched: Settings)
      returns (settings: Settings, requested: bool)
      modifies this`documentSettings
      ensures !hasConfigurationCapability ==>
        && settings == globalSettings
        && !requested
        && documentSettings == old(documentSettings)
      ensures hasConfigurationCapability && resource in old(documentSettings) ==>
        && settings == old(documentSettings)[resource]
        && !requested
        && documentSettings == old(documentSettings)
      ensures hasConfigurationCapability && resource !in old(documentSettings) ==>
        && settings == fetched
        && requested
        && documentSettings == old(documentSettings)[resource := fetched]
    {
      if !hasConfigurationCapability {
        return globalSettings, false;
      }
      requested := resource !in documentSettings;
      if requested {
        documentSettings := documentSettings[resource := fetched];
      }
      settings := documentSettings[resource];
    }

    /** Closing a document forgets its cached settings and nothing else. */
    method OnDidClose(uri: string)
      modifies this`documentSettings
      ensures documentSettings == old(documentSettings) - {uri}
    {
      documentSettings := documentSettings - {uri};
    }

    /** A configuration change. `change` is the notification's `settings`
        value: `None` when it is null or undefined, otherwise whether it holds
        an `electrolintLanguageServer` section. With the configuration
        capability every cached entry is dropped and `settings` is not looked
        at. Without it the global settings become that section, or the
        defaults when it is absent; reading the section of a null or undefined
        `settings` throws, which leaves the state as it was and revalidates
        nothing. Otherwise every open document is analysed again, once each. */
    method OnDidChangeConfiguration(change: Option<Option<Settings>>, openDocuments: seq<string>)
      returns (revalidate: seq<string>, thrown: bool)
      modifies this`documentSettings, this`globalSettings
      ensures thrown <==> !hasConfigurationCapability && change.None?
      ensures thrown ==>
        && documentSettings == old(documentSettings)
        && globalSettings == old(globalSettings)
        && revalidate == []
      ensures hasConfigurationCapability ==>
        documentSettings == map[] && globalSettings == old(globalSettings)
      ensures !hasConfigurationCapability && change.Some? ==>
        && documentSettings == old(documentSettings)
        && globalSettings == (if change.value.Some? then change.value.value else DefaultSettings)
      ensures !thrown ==> revalidate == openDocuments
    {
      if hasConfigurationCapability {
        documentSettings := map[];
      } else if change.None? {
        return [], true;
      } else {
        globalSettings := change.value.GetOr(DefaultSettings);
      }
      revalidate, thrown := openDocuments, false;
    }
  }

  /** A document's settings are fetched once while it is open, and again after
      it is closed and reopened. */
  method CloseAndReopen(server: LanguageServer, uri: string, first: Settings, second: Settings)
    returns (a: Settings, b: Settings, c: Settings, fetches: nat)
    requires server.hasConfigurationCapability
    requires uri !in server.documentSettings
    modifies server
    ensures a == first && b == first && c == second
    ensures fetches == 2
  {
    var r1, r2, r3;
    a, r1 := server.GetDocumentSettings(uri, first);
    b, r2 := server.GetDocumentSettings(uri, second);
    server.OnDidClose(uri);
    c, r3 := server.GetDocumentSettings(uri, second);
    fetches := (if r1 then 1 else 0) + (if r2 then 1 else 0) + (if r3 then 1 else 0);
  }

  /** After a configuration change with the capability, a cached document
      fetches its settings again. */
  method ChangeForcesRefetch(server: LanguageServer, uri: string, latest: Settings, open: seq<string>)
    returns (s: Settings, requested: bool)
    requires server.hasConfigurationCapability
    modifies server
    ensures s == latest && requested
  {
    var _, _ := server.OnDidChangeConfiguration(None, open);
    s, requested := server.GetDocumentSettings(uri, latest);
  }
}
