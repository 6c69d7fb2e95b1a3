/** The catalog of language servers and its overrides (crates/lspee_config/src/languages.rs). */
module Languages {
  import opened Wrappers
  import opened Config

  datatype LspDefinition = LspDefinition(
    command: string,
    args: seq<string>,
    fileExtensions: set<string>,
    rootMarkers: seq<string>
  )

  type Catalog = map<string, LspDefinition>

  const EMPTY_DEFINITION := LspDefinition("", [], {}, [])

  const EXTENSION_PREFIX := "language_extension_"

  /** The file extensions that initialization options add: their keys with the prefix taken off. */
  function ExtensionsIn(options: map<string, OptionValue>): set<string> {
    set k | k in options && EXTENSION_PREFIX <= k :: k[|EXTENSION_PREFIX|..]
  }

  function Definition(catalog: Catalog, id: string): LspDefinition {
    if id in catalog then catalog[id] else EMPTY_DEFINITION
  }

  function OverrideEntry(catalog: Catalog, e: PartialLsp): Catalog {
    var prior := Definition(catalog, IdOf(e));
    catalog[IdOf(e) := LspDefinition(
            Or(e.command, prior.command), Or(e.args, prior.args),
            if e.initializationOptions.Some? then prior.fileExtensions + ExtensionsIn(e.initializationOptions.value)
            else prior.fileExtensions,
            prior.rootMarkers)]
  }

  function OverrideAll(catalog: Catalog, entries: seq<PartialLsp>): Catalog {
    if entries == [] then catalog
    else OverrideEntry(OverrideAll(catalog, entries[..|entries| - 1]), entries[|entries| - 1])
  }

  class LanguageRegistry {
    var lsp: Catalog

    constructor (defaults: Catalog)
      ensures lsp == defaults
    {
      lsp := defaults;
    }

    method ApplyOverrides(layer: Option<Partial>)
      modifies this
      ensures lsp == OverrideAll(old(lsp), if layer.Some? then layer.value.lsp else [])
    {
      if layer.None? {
        return;
      }
      var entries := layer.value.lsp;
      for j := 0 to |entries|
        invariant lsp == OverrideAll(old(lsp), entries[..j])
      {
        assert entries[..j + 1][..j] == entries[..j];
        var partialLsp := entries[j];
        var id := if partialLsp.id.Some? then partialLsp.id.value else "default";
        var entry := if id in lsp then lsp[id] else LspDefinition("", [], {}, []);
        if partialLsp.command.Some? {
          entry := entry.(command := partialLsp.command.value);
        }
        if partialLsp.args.Some? {
          entry := entry.(args := partialLsp.args.value);
        }
        if partialLsp.initializationOptions.Some? {
          var found := ExtensionsIn(partialLsp.initializationOptions.value);
          entry := entry.(fileExtensions := entry.fileExtensions + found);
        }
        lsp := lsp[id := entry];
      }
      assert entries[..|entries|] == entries;
    }
  }

  /** `load_registry`: the built-in catalog, overridden by the user file, then by the project file. */
  method LoadRegistry(defaults: Catalog, user: Option<Partial>, project: Option<Partial>)
    returns (registry: LanguageRegistry)
    ensures fresh(registry) && registry.lsp == OverrideAll(defaults, AllEntries(Layers(user, project)))
  {
    registry := new LanguageRegistry(defaults);
    registry.ApplyOverrides(user);
    registry.ApplyOverrides(project);
    var a, b := if user.Some? then user.value.lsp else [], if project.Some? then project.value.lsp else [];
    OverrideAllConcat(defaults, a, b);
    LayersEntries(user, project);
  }

  lemma OneLayer(p: Partial)
    ensures AllEntries([p]) == p.lsp
  {
    assert [p][..0] == [];
  }

  lemma LayersEntries(user: Option<Partial>, project: Option<Partial>)
    ensures AllEntries(Layers(user, project)) ==
            (if user.Some? then user.value.lsp else []) + (if project.Some? then project.value.lsp else [])
  {
    if user.Some? {
      OneLayer(user.value);
    }
    if project.Some? {
      OneLayer(project.value);
    }
    if user.Some? && project.Some? {
      var layers := Layers(user, project);
      assert layers[..|layers| - 1] == [user.value] && layers[|layers| - 1] == project.value;
    }
  }

  lemma {:induction false} OverrideAllConcat(catalog: Catalog, a: seq<PartialLsp>, b: seq<PartialLsp>)
    ensures OverrideAll(catalog, a + b) == OverrideAll(OverrideAll(catalog, a), b)
  {
    if b == [] {
      assert a + b == a;
    } else {
      assert (a + b)[..|a + b| - 1] == a + b[..|b| - 1];
      OverrideAllConcat(catalog, a, b[..|b| - 1]);
    }
  }

  /** The extensions that the entries for `id` add, all of them together. */
  function ExtensionsOf(entries: seq<PartialLsp>, id: string): set<string> {
    set e, x | e in entries && IdOf(e) == id && e.initializationOptions.Some? &&
               x in ExtensionsIn(e.initializationOptions.value) :: x
  }

  lemma OverrideEntryEffect(catalog: Catalog, e: PartialLsp, id: string)
    ensures id in OverrideEntry(catalog, e) <==> id in catalog || IdOf(e) == id
    ensures Definition(OverrideEntry(catalog, e), id) ==
            if IdOf(e) != id then Definition(catalog, id)
            else
              var before := Definition(catalog, id);
              LspDefinition(Or(e.command, before.command), Or(e.args, before.args),
                            before.fileExtensions + ExtensionsOf([e], id), before.rootMarkers)
  {
    if IdOf(e) == id {
      if e.initializationOptions.Some? {
        assert e in [e];
        assert ExtensionsOf([e], id) == ExtensionsIn(e.initializationOptions.value);
      } else {
        assert ExtensionsOf([e], id) == {};
      }
    }
  }

  /** Command and arguments are replaced by the last entry that sets them; file extensions add up. */
  lemma {:induction false} OverridesAccumulate(catalog: Catalog, entries: seq<PartialLsp>, id: string)
    ensures id in OverrideAll(catalog, entries) <==> id in catalog || Mentions(entries, id)
    ensures var before, after := Definition(catalog, id), Definition(OverrideAll(catalog, entries), id);
            && after.command == Or(LastSet(entries, id, CommandOf), before.command)
            && after.args == Or(LastSet(entries, id, ArgsOf), before.args)
            && after.fileExtensions == before.fileExtensions + ExtensionsOf(entries, id)
            && after.rootMarkers == before.rootMarkers
  {
    if entries == [] {
      assert ExtensionsOf(entries, id) == {};
    } else {
      var front, last := entries[..|entries| - 1], entries[|entries| - 1];
      OverridesAccumulate(catalog, front, id);
      OverrideEntryEffect(OverrideAll(catalog, front), last, id);
      assert entries == front + [last];
      assert ExtensionsOf(entries, id) == ExtensionsOf(front, id) + ExtensionsOf([last], id);
      assert IdOf(last) != id ==> ExtensionsOf([last], id) == {};
    }
  }
}
