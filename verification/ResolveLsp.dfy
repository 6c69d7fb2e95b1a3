/** How the daemon finds the command for a server id (crates/lspee_daemon/src/lib.rs, `resolve_lsp_config`). */
module ResolveLsp {
  import opened Wrappers
  import opened Text
  import opened Config
  import opened Languages

  function LspForId(catalog: Catalog, id: string): Option<LspDefinition> {
    if id in catalog then Some(catalog[id]) else None
  }

  /** The merged entry with its gaps filled in from the catalog. */
  function FilledIn(config: LspConfig, entry: Option<LspDefinition>): LspConfig {
    match entry
    case None => config
    case Some(d) =>
      config.(command := if IsBlank(config.command) then d.command else config.command,
      args := if config.args == [] then d.args else config.args)
  }

  datatype NoCommand = NoCommand(id: string)

  function Resolved(merged: Effective, catalog: Catalog, id: string): Result<LspConfig, NoCommand> {
    var entry := LspForId(catalog, id);
    if id in merged.lsps && !IsBlank(FilledIn(merged.lsps[id], entry).command) then Ok(FilledIn(merged.lsps[id], entry))
    else if entry.Some? then Ok(LspConfig(id, entry.value.command, entry.value.args, map[], map[]))
    else Err(NoCommand(id))
  }

  method ResolveLspConfig(merged: Effective, catalog: Catalog, id: string) returns (r: Result<LspConfig, NoCommand>)
    ensures r == Resolved(merged, catalog, id)
  {
    var entry := LspForId(catalog, id);
    if id in merged.lsps {
      var config := merged.lsps[id];
      TrimIsBlank(config.command);
      if Trim(config.command) == "" && entry.Some? {
        config := config.(command := entry.value.command);
      }
      if config.args == [] && entry.Some? {
        config := config.(args := entry.value.args);
      }
      TrimIsBlank(config.command);
      if Trim(config.command) != "" {
        return Ok(config);
      }
    }
    if entry.Some? {
      return Ok(LspConfig(id, entry.value.command, entry.value.args, map[], map[]));
    }
    return Err(NoCommand(id));
  }

  /**
   The merge of the layers and the overridden catalog are two folds over the same files.  They agree: a
   server resolves exactly when the built-in catalog or some layer names it, and then its command and
   arguments are those of the overridden catalog entry, empty and blank overrides included.  Environment
   and initialization options come from the merge, but are lost when the command is blank.
   */
  lemma FoldsAgree(defaults: Catalog, layers: seq<Partial>, id: string)
    ensures var entries := AllEntries(layers);
            var merged, catalog := MergeAll(DEFAULT_CONFIG, layers), OverrideAll(defaults, entries);
            var r := Resolved(merged, catalog, id);
            && (r.Err? <==> id !in defaults && !Mentions(entries, id))
            && (r.Ok? ==>
                  && id in catalog && r.value.id == id
                  && r.value.command == catalog[id].command && r.value.args == catalog[id].args
                  && (id in merged.lsps && !IsBlank(r.value.command) ==>
                        r.value.env == merged.lsps[id].env &&
                        r.value.initializationOptions == merged.lsps[id].initializationOptions)
                  && (id !in merged.lsps || IsBlank(r.value.command) ==>
                        r.value.env == map[] && r.value.initializationOptions == map[]))
  {
    var entries := AllEntries(layers);
    LayersLastDefinitionWins(layers, id);
    OverridesAccumulate(defaults, entries, id);
    LastSetIsLast(entries, id, CommandOf);
    assert IsBlank("");
  }

  /** The whole look-up that a spawn makes. */
  method ResolveForSpawn(defaults: Catalog, user: Option<Partial>, project: Option<Partial>, id: string)
    returns (r: Result<LspConfig, NoCommand>)
    ensures r.Err? <==> id !in defaults && !Mentions(AllEntries(Layers(user, project)), id)
    ensures r.Ok? ==>
              var catalog := OverrideAll(defaults, AllEntries(Layers(user, project)));
              id in catalog && r.value.command == catalog[id].command && r.value.args == catalog[id].args
  {
    var merged := Resolve(user, project);
    var registry := LoadRegistry(defaults, user, project);
    var value := Effective(merged.lsps, merged.rootMarkers, merged.workspaceMode, merged.transportFlags,
                           merged.memory, merged.session);
    FoldsAgree(defaults, Layers(user, project), id);
    r := ResolveLspConfig(value, registry.lsp, id);
  }
}
