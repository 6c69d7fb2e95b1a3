/** Configuration layers and their merge (crates/lspee_config/src/lib.rs). */
module Config {
  import opened Wrappers

  /** Values of initialization options are passed on unread. */
  type OptionValue = string

  datatype LspConfig = LspConfig(
    id: string,
    command: string,
    args: seq<string>,
    env: map<string, string>,
    initializationOptions: map<string, OptionValue>
  )

  datatype MemoryConfig = MemoryConfig(maxSessionMb: Option<nat>, maxTotalMb: Option<nat>, checkIntervalMs: nat)

  datatype SessionConfig = SessionConfig(idleTtlSecs: nat, daemonIdleTtlSecs: Option<nat>)

  datatype Effective = Effective(
    lsps: map<string, LspConfig>,
    rootMarkers: seq<string>,
    workspaceMode: string,
    transportFlags: map<string, string>,
    memory: MemoryConfig,
    session: SessionConfig
  )

  /** One `[[lsp]]` entry of a configuration file. */
  datatype PartialLsp = PartialLsp(
    id: Option<string>,
    command: Option<string>,
    args: Option<seq<string>>,
    env: Option<map<string, string>>,
    initializationOptions: Option<map<string, OptionValue>>
  )

  datatype PartialMemory = PartialMemory(
    maxSessionMb: Option<nat>,
    maxTotalMb: Option<nat>,
    checkIntervalMs: Option<nat>
  )

  datatype PartialSession = PartialSession(idleTtlSecs: Option<nat>, daemonIdleTtlSecs: Option<nat>)

  /** One configuration file. */
  datatype Partial = Partial(
    lsp: seq<PartialLsp>,
    rootMarkers: Option<seq<string>>,
    workspaceMode: Option<string>,
    transportFlags: Option<map<string, string>>,
    memory: Option<PartialMemory>,
    session: Option<PartialSession>
  )

  const DEFAULT_CONFIG := Effective(
    map[], [".git"], "single", map[], MemoryConfig(None, None, 1000), SessionConfig(300, Some(1800)))

  function Or<T>(o: Option<T>, otherwise: T): T {
    if o.Some? then o.value else otherwise
  }

  function Either<T>(a: Option<T>, b: Option<T>): Option<T> {
    if a.Some? then a else b
  }

  /** An entry without an id is filed under "default". */
  function IdOf(entry: PartialLsp): string {
    Or(entry.id, "default")
  }

  function NewLsp(id: string): LspConfig {
    LspConfig(id, "", [], map[], map[])
  }

  // ----- The merge as a fold

  function MergeEntry(lsps: map<string, LspConfig>, entry: PartialLsp): map<string, LspConfig> {
    var id := IdOf(entry);
    var prior := if id in lsps then lsps[id] else NewLsp(id);
    lsps[id := prior.(command := Or(entry.command, prior.command), args := Or(entry.args, prior.args),
    env := Or(entry.env, prior.env),
    initializationOptions := Or(entry.initializationOptions, prior.initializationOptions))]
  }

  function MergeEntries(lsps: map<string, LspConfig>, entries: seq<PartialLsp>): map<string, LspConfig> {
    if entries == [] then lsps
    else MergeEntry(MergeEntries(lsps, entries[..|entries| - 1]), entries[|entries| - 1])
  }

  function MergeMemory(m: MemoryConfig, p: Option<PartialMemory>): MemoryConfig {
    match p
    case None => m
    case Some(p) =>
      MemoryConfig(Either(p.maxSessionMb, m.maxSessionMb), Either(p.maxTotalMb, m.maxTotalMb),
                   Or(p.checkIntervalMs, m.checkIntervalMs))
  }

  function MergeSession(s: SessionConfig, p: Option<PartialSession>): SessionConfig {
    match p
    case None => s
    case Some(p) =>
      SessionConfig(Or(p.idleTtlSecs, s.idleTtlSecs), Either(p.daemonIdleTtlSecs, s.daemonIdleTtlSecs))
  }

  function Merge(e: Effective, p: Partial): Effective {
    Effective(MergeEntries(e.lsps, p.lsp), Or(p.rootMarkers, e.rootMarkers), Or(p.workspaceMode, e.workspaceMode),
              Or(p.transportFlags, e.transportFlags), MergeMemory(e.memory, p.memory),
              MergeSession(e.session, p.session))
  }

  function MergeAll(e: Effective, layers: seq<Partial>): Effective {
    if layers == [] then e else Merge(MergeAll(e, layers[..|layers| - 1]), layers[|layers| - 1])
  }

  /** The layers that exist, in the order in which they are applied. */
  function Layers(user: Option<Partial>, project: Option<Partial>): seq<Partial> {
    (if user.Some? then [user.value] else []) + (if project.Some? then [project.value] else [])
  }

  // ----- The merge in place

  class EffectiveConfig {
    var lsps: map<string, LspConfig>
    var rootMarkers: seq<string>
    var workspaceMode: string
    var transportFlags: map<string, string>
    var memory: MemoryConfig
    var session: SessionConfig

    function Value(): Effective
      reads this
    {
      Effective(lsps, rootMarkers, workspaceMode, transportFlags, memory, session)
    }

    constructor ()
      ensures Value() == DEFAULT_CONFIG
    {
      lsps, rootMarkers, workspaceMode, transportFlags := map[], [".git"], "single", map[];
      memory, session := MemoryConfig(None, None, 1000), SessionConfig(300, Some(1800));
    }

    method ApplyLspEntries(entries: seq<PartialLsp>)
      modifies this`lsps
      ensures lsps == MergeEntries(old(lsps), entries)
    {
      for j := 0 to |entries|
        invariant lsps == MergeEntries(old(lsps), entries[..j])
      {
        assert entries[..j + 1][..j] == entries[..j];
        var lsp := entries[j];
        var id := if lsp.id.Some? then lsp.id.value else "default";
        var entry := if id in lsps then lsps[id] else LspConfig(id, "", [], map[], map[]);
        if lsp.command.Some? {
          entry := entry.(command := lsp.command.value);
        }
        if lsp.args.Some? {
          entry := entry.(args := lsp.args.value);
        }
        if lsp.env.Some? {
          entry := entry.(env := lsp.env.value);
        }
        if lsp.initializationOptions.Some? {
          entry := entry.(initializationOptions := lsp.initializationOptions.value);
        }
        lsps := lsps[id := entry];
      }
      assert entries[..|entries|] == entries;
    }

    method ApplyPartial(partial: Partial)
      modifies this
      ensures Value() == Merge(old(Value()), partial)
    {
      ApplyLspEntries(partial.lsp);
      if partial.rootMarkers.Some? {
        rootMarkers := partial.rootMarkers.value;
      }
      if partial.workspaceMode.Some? {
        workspaceMode := partial.workspaceMode.value;
      }
      if partial.transportFlags.Some? {
        transportFlags := partial.transportFlags.value;
      }
      ApplyMemory(partial.memory);
      ApplySession(partial.session);
    }

    method ApplyMemory(partial: Option<PartialMemory>)
      modifies this`memory
      ensures memory == MergeMemory(old(memory), partial)
    {
      if partial.Some? {
        var p := partial.value;
        if p.maxSessionMb.Some? {
          memory := memory.(maxSessionMb := p.maxSessionMb);
        }
        if p.maxTotalMb.Some? {
          memory := memory.(maxTotalMb := p.maxTotalMb);
        }
        if p.checkIntervalMs.Some? {
          memory := memory.(checkIntervalMs := p.checkIntervalMs.value);
        }
      }
    }

    method ApplySession(partial: Option<PartialSession>)
      modifies this`session
      ensures session == MergeSession(old(session), partial)
    {
      if partial.Some? {
        var p := partial.value;
        if p.idleTtlSecs.Some? {
          session := session.(idleTtlSecs := p.idleTtlSecs.value);
        }
        if p.daemonIdleTtlSecs.Some? {
          session := session.(daemonIdleTtlSecs := p.daemonIdleTtlSecs);
        }
      }
    }
  }

  lemma LayersInTurn(user: Option<Partial>, project: Option<Partial>)
    ensures var one := if user.Some? then Merge(DEFAULT_CONFIG, user.value) else DEFAULT_CONFIG;
            MergeAll(DEFAULT_CONFIG, Layers(user, project)) == if project.Some? then Merge(one, project.value) else one
  {
    var layers := Layers(user, None);
    var one := if user.Some? then Merge(DEFAULT_CONFIG, user.value) else DEFAULT_CONFIG;
    assert MergeAll(DEFAULT_CONFIG, layers) == one by {
      if user.Some? {
        assert layers == [user.value] && layers[..0] == [];
      }
    }
    if project.None? {
      assert Layers(user, project) == layers;
    } else {
      var all := Layers(user, project);
      assert all[..|all| - 1] == layers && all[|all| - 1] == project.value;
    }
  }

  /** `resolve`: defaults, then the user file, then the project file, as far as they exist. */
  method Resolve(user: Option<Partial>, project: Option<Partial>) returns (merged: EffectiveConfig)
    ensures fresh(merged) && merged.Value() == MergeAll(DEFAULT_CONFIG, Layers(user, project))
  {
    LayersInTurn(user, project);
    merged := new EffectiveConfig();
    if user.Some? {
      merged.ApplyPartial(user.value);
    }
    if project.Some? {
      merged.ApplyPartial(project.value);
    }
  }

  // ----- Last definition wins

  /** What the last entry for `id` that sets the field says about it. */
  function LastSet<T>(entries: seq<PartialLsp>, id: string, field: PartialLsp -> Option<T>): Option<T> {
    if entries == [] then None
    else
      var last := entries[|entries| - 1];
      if IdOf(last) == id && field(last).Some? then field(last) else LastSet(entries[..|entries| - 1], id, field)
  }

  predicate Sets<T>(entry: PartialLsp, id: string, field: PartialLsp -> Option<T>) {
    IdOf(entry) == id && field(entry).Some?
  }

  /** `LastSet` in terms of positions: an entry that sets the field, with none behind it that does. */
  lemma {:induction false} LastSetIsLast<T>(entries: seq<PartialLsp>, id: string, field: PartialLsp -> Option<T>)
    ensures LastSet(entries, id, field).None? <==> forall e :: e in entries ==> !Sets(e, id, field)
    ensures LastSet(entries, id, field).Some? ==>
              exists j :: 0 <= j < |entries| && Sets(entries[j], id, field)
                          && field(entries[j]) == LastSet(entries, id, field)
                          && forall l :: j < l < |entries| ==> !Sets(entries[l], id, field)
  {
    if entries != [] {
      var front, last := entries[..|entries| - 1], entries[|entries| - 1];
      LastSetIsLast(front, id, field);
      assert entries == front + [last];
      if Sets(last, id, field) {
        assert Sets(entries[|front|], id, field);
      } else if LastSet(front, id, field).Some? {
        var j :| 0 <= j < |front| && Sets(front[j], id, field) && field(front[j]) == LastSet(front, id, field)
                 && forall l :: j < l < |front| ==> !Sets(front[l], id, field);
        assert Sets(entries[j], id, field);
      }
    }
  }

  lemma {:induction false} LastSetConcat<T>(
    a: seq<PartialLsp>, b: seq<PartialLsp>, id: string, field: PartialLsp -> Option<T>
  )
    ensures LastSet(a + b, id, field) == Either(LastSet(b, id, field), LastSet(a, id, field))
  {
    if b == [] {
      assert a + b == a;
    } else {
      assert (a + b)[..|a + b| - 1] == a + b[..|b| - 1];
      LastSetConcat(a, b[..|b| - 1], id, field);
    }
  }

  predicate Mentions(entries: seq<PartialLsp>, id: string) {
    exists e :: e in entries && IdOf(e) == id
  }

  function CommandOf(e: PartialLsp): Option<string> { e.command }

  function ArgsOf(e: PartialLsp): Option<seq<string>> { e.args }

  function EnvOf(e: PartialLsp): Option<map<string, string>> { e.env }

  function OptionsOf(e: PartialLsp): Option<map<string, OptionValue>> { e.initializationOptions }

  function Entry(lsps: map<string, LspConfig>, id: string): LspConfig {
    if id in lsps then lsps[id] else NewLsp(id)
  }

  lemma MergeEntryEffect(lsps: map<string, LspConfig>, e: PartialLsp, id: string)
    ensures id in MergeEntry(lsps, e) <==> id in lsps || IdOf(e) == id
    ensures Entry(MergeEntry(lsps, e), id) ==
            if IdOf(e) != id then Entry(lsps, id)
            else
              var before := Entry(lsps, id);
              LspConfig(before.id, Or(e.command, before.command), Or(e.args, before.args), Or(e.env, before.env),
                        Or(e.initializationOptions, before.initializationOptions))
  {
  }

  /** Every field of a merged server is what its last entry said, else what was there before. */
  lemma {:induction false} LastDefinitionWins(lsps: map<string, LspConfig>, entries: seq<PartialLsp>, id: string)
    ensures id in MergeEntries(lsps, entries) <==> id in lsps || Mentions(entries, id)
    ensures var before, after := Entry(lsps, id), Entry(MergeEntries(lsps, entries), id);
            && after.id == before.id
            && after.command == Or(LastSet(entries, id, CommandOf), before.command)
            && after.args == Or(LastSet(entries, id, ArgsOf), before.args)
            && after.env == Or(LastSet(entries, id, EnvOf), before.env)
            && after.initializationOptions == Or(LastSet(entries, id, OptionsOf), before.initializationOptions)
  {
    if entries != [] {
      var front, last := entries[..|entries| - 1], entries[|entries| - 1];
      LastDefinitionWins(lsps, front, id);
      MergeEntryEffect(MergeEntries(lsps, front), last, id);
      assert entries == front + [last];
    }
  }

  /** All `[[lsp]]` entries of the layers, in order. */
  function AllEntries(layers: seq<Partial>): seq<PartialLsp> {
    if layers == [] then [] else AllEntries(layers[..|layers| - 1]) + layers[|layers| - 1].lsp
  }

  lemma {:induction false} MergeEntriesConcat(lsps: map<string, LspConfig>, a: seq<PartialLsp>, b: seq<PartialLsp>)
    ensures MergeEntries(lsps, a + b) == MergeEntries(MergeEntries(lsps, a), b)
  {
    if b == [] {
      assert a + b == a;
    } else {
      assert (a + b)[..|a + b| - 1] == a + b[..|b| - 1];
      MergeEntriesConcat(lsps, a, b[..|b| - 1]);
    }
  }

  lemma {:induction false} LayersMergeEntries(e: Effective, layers: seq<Partial>)
    ensures MergeAll(e, layers).lsps == MergeEntries(e.lsps, AllEntries(layers))
  {
    if layers != [] {
      var front := layers[..|layers| - 1];
      LayersMergeEntries(e, front);
      MergeEntriesConcat(e.lsps, AllEntries(front), layers[|layers| - 1].lsp);
    }
  }

  /** The last layer that sets a top-level field. */
  function LastLayer<T>(layers: seq<Partial>, field: Partial -> Option<T>): Option<T> {
    if layers == [] then None
    else Either(field(layers[|layers| - 1]), LastLayer(layers[..|layers| - 1], field))
  }

  function RootMarkersOf(p: Partial): Option<seq<string>> { p.rootMarkers }

  function WorkspaceModeOf(p: Partial): Option<string> { p.workspaceMode }

  function TransportFlagsOf(p: Partial): Option<map<string, string>> { p.transportFlags }

  function MaxSessionOf(p: Partial): Option<nat> { if p.memory.Some? then p.memory.value.maxSessionMb else None }

  function MaxTotalOf(p: Partial): Option<nat> { if p.memory.Some? then p.memory.value.maxTotalMb else None }

  function CheckIntervalOf(p: Partial): Option<nat> { if p.memory.Some? then p.memory.value.checkIntervalMs else None }

  function IdleTtlOf(p: Partial): Option<nat> { if p.session.Some? then p.session.value.idleTtlSecs else None }

  function DaemonTtlOf(p: Partial): Option<nat> { if p.session.Some? then p.session.value.daemonIdleTtlSecs else None }

  /**
   For any list of layers, with any number of entries per id: a server is configured exactly when some
   entry names it, its map key is its id, each of its fields is what the last entry that sets it says,
   else empty; and each top-level field is what the last layer that sets it says, else the default.
   */
  lemma {:induction false} LayersLastDefinitionWins(layers: seq<Partial>, id: string)
    ensures var merged, entries := MergeAll(DEFAULT_CONFIG, layers), AllEntries(layers);
            && (id in merged.lsps <==> Mentions(entries, id))
            && (id in merged.lsps ==>
                  merged.lsps[id] == LspConfig(
                    id, Or(LastSet(entries, id, CommandOf), ""), Or(LastSet(entries, id, ArgsOf), []),
                    Or(LastSet(entries, id, EnvOf), map[]), Or(LastSet(entries, id, OptionsOf), map[])))
    ensures var merged := MergeAll(DEFAULT_CONFIG, layers);
            && merged.rootMarkers == Or(LastLayer(layers, RootMarkersOf), [".git"])
            && merged.workspaceMode == Or(LastLayer(layers, WorkspaceModeOf), "single")
            && merged.transportFlags == Or(LastLayer(layers, TransportFlagsOf), map[])
            && merged.memory.maxSessionMb == LastLayer(layers, MaxSessionOf)
            && merged.memory.maxTotalMb == LastLayer(layers, MaxTotalOf)
            && merged.memory.checkIntervalMs == Or(LastLayer(layers, CheckIntervalOf), 1000)
            && merged.session.idleTtlSecs == Or(LastLayer(layers, IdleTtlOf), 300)
            && merged.session.daemonIdleTtlSecs == Either(LastLayer(layers, DaemonTtlOf), Some(1800))
  {
    LayersMergeEntries(DEFAULT_CONFIG, layers);
    LastDefinitionWins(map[], AllEntries(layers), id);
    TopLevelLastWins(layers);
  }

  lemma {:induction false} TopLevelLastWins(layers: seq<Partial>)
    ensures var merged := MergeAll(DEFAULT_CONFIG, layers);
            && merged.rootMarkers == Or(LastLayer(layers, RootMarkersOf), [".git"])
            && merged.workspaceMode == Or(LastLayer(layers, WorkspaceModeOf), "single")
            && merged.transportFlags == Or(LastLayer(layers, TransportFlagsOf), map[])
            && merged.memory.maxSessionMb == LastLayer(layers, MaxSessionOf)
            && merged.memory.maxTotalMb == LastLayer(layers, MaxTotalOf)
            && merged.memory.checkIntervalMs == Or(LastLayer(layers, CheckIntervalOf), 1000)
            && merged.session.idleTtlSecs == Or(LastLayer(layers, IdleTtlOf), 300)
            && merged.session.daemonIdleTtlSecs == Either(LastLayer(layers, DaemonTtlOf), Some(1800))
  {
    if layers != [] {
      TopLevelLastWins(layers[..|layers| - 1]);
    }
  }

  // ----- Algebra of layers

  /** Two layers as one file. */
  function Combined(p: Partial, q: Partial): Partial {
    Partial(p.lsp + q.lsp, Either(q.rootMarkers, p.rootMarkers), Either(q.workspaceMode, p.workspaceMode),
            Either(q.transportFlags, p.transportFlags), CombinedMemory(p.memory, q.memory),
            CombinedSession(p.session, q.session))
  }

  function CombinedMemory(p: Option<PartialMemory>, q: Option<PartialMemory>): Option<PartialMemory> {
    match (p, q)
    case (Some(p), Some(q)) =>
      Some(PartialMemory(Either(q.maxSessionMb, p.maxSessionMb), Either(q.maxTotalMb, p.maxTotalMb),
                         Either(q.checkIntervalMs, p.checkIntervalMs)))
    case _ => Either(q, p)
  }

  function CombinedSession(p: Option<PartialSession>, q: Option<PartialSession>): Option<PartialSession> {
    match (p, q)
    case (Some(p), Some(q)) =>
      Some(PartialSession(Either(q.idleTtlSecs, p.idleTtlSecs), Either(q.daemonIdleTtlSecs, p.daemonIdleTtlSecs)))
    case _ => Either(q, p)
  }

  lemma CombinedMemoryMerges(m: MemoryConfig, p: Option<PartialMemory>, q: Option<PartialMemory>)
    ensures MergeMemory(MergeMemory(m, p), q) == MergeMemory(m, CombinedMemory(p, q))
  {
  }

  lemma CombinedSessionMerges(s: SessionConfig, p: Option<PartialSession>, q: Option<PartialSession>)
    ensures MergeSession(MergeSession(s, p), q) == MergeSession(s, CombinedSession(p, q))
  {
  }

  lemma TwoLayersAreOne(e: Effective, p: Partial, q: Partial)
    ensures Merge(Merge(e, p), q) == Merge(e, Combined(p, q))
  {
    MergeEntriesConcat(e.lsps, p.lsp, q.lsp);
    CombinedMemoryMerges(e.memory, p.memory, q.memory);
    CombinedSessionMerges(e.session, p.session, q.session);
  }

  lemma MergeIsIdempotent(e: Effective, p: Partial)
    ensures Merge(Merge(e, p), p) == Merge(e, p)
  {
    var once, twice := MergeEntries(e.lsps, p.lsp), MergeEntries(MergeEntries(e.lsps, p.lsp), p.lsp);
    forall id ensures (id in twice <==> id in once) && (id in once ==> twice[id] == once[id]) {
      LastDefinitionWins(e.lsps, p.lsp, id);
      LastDefinitionWins(once, p.lsp, id);
    }
    assert twice == once;
  }
}
