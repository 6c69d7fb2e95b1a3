# Verified model of the lspee daemon

lspee keeps language servers warm.  A daemon owns a registry of running servers (sessions) that clients
lease, evicts idle and memory-hungry ones, talks to each server over the Language Server Protocol, and is
driven over a control socket.  This project models the parts of it in which state, concurrency or arithmetic
make mistakes easy, and proves what they promise.

`dafny verify dfyconfig.toml` checks everything.

## How the model is built

**Session registry** (`crates/lspee_daemon/src/registry.rs`), at two granularities.
`RegistrySteps` is a transition system for any number of tasks, with one step per lock region and a program
counter per task: the locks, the spawn gates with their `started` flag and wake-ups, the counters and the two
maps.  The spawn closure is a step that returns any result, with a handle for the key it was given; a wake-up
is an epoch that `notify_waiters` advances.  `RegistryLocks`, `RegistryProgress`, `RegistryAccounting` and
`RegistryTheorems` prove what holds in every reachable state.  `Registry` is the class with whole method
calls, specified by the functions of `RegistryCalls`; `RegistrySolo` proves that a call that runs alone goes
through its lock regions to exactly that result.  `RegistryFlight`, `RegistryRaces` and `RegistryIdle` settle what
interleaving costs: the runs in which lock regions of calls for one key get in each other's way, and the exact
conditions on the calls of a run under which that cannot happen.  The sets `released` and `dropped` are history: the
ids that left the lease map through a release or a removal.

Everything above the registry (eviction, memory monitor, control connections, shutdown) acts on it by whole calls,
and any number of whole calls of other tasks may come before each of them: `RegistryCalls.Amid`.

**Eviction** (`eviction.rs`, `memory.rs`).  `Eviction` characterizes auto-shutdown over whole runs and shows
that, over whole calls, idle eviction drops no lease.  `MemoryOrder`, `Memory`, `MemoryTheorems` and `MemoryMonitor` take the
selection loop apart: in-place stable sort, filter, running total, de-duplication.

**Configuration** (`lspee_config`, `resolve_lsp_config`, the CLI's list edits).  `Config` and `Languages` are
the two folds over the same files, `ResolveLsp` reconciles them, `ConfigEdits` are `add-lsp` and `remove-lsp`.

**Language server wire** (`lspee_lsp`).  `Framing` and `FramingTheorems` are the "Header Part" and "Content
Part" of the "Base Protocol" of the Language Server Protocol Specification 3.17, over bytes, with UTF-8
decoding of header lines.  `CallMatching` and `CallTheorems` are the calls that share one broadcast channel,
with ids matched as in section 5 of the JSON-RPC 2.0 specification.

**Control connection** (`lib.rs`).  `Control` and `ControlTheorems`: lines in, responses out, and what they
do to the registry while other tasks make calls of their own, between lines and while a line is served.
`ControlLedger` shows when a client can keep books of its leases by the responses.  `Shutdown` is how the daemon
stops its sessions.

Integers are unbounded except where a width matters: lease numbers and byte totals wrap at 2^64, the protocol
version is cut to 32 bits, and `usize` parsing refuses 2^64.

## Where code, documentation and expectation part

- `daemon_idle_ttl_secs = 0` is documented as "disabled" (docs/src/reference/configuration.md:31,
  docs/src/includes/daemon-auto-shutdown.md:17-24).  The code gives zero no special meaning:
  `Eviction.ZeroLimit`.
- An unknown protocol version must close the connection (docs/specs/daemon-protocol.md:18).  A version that is
  1 modulo 2^32 does not: `ControlTheorems.WrongVersionCloses` says exactly which do.
- Every response must bear the request's id (docs/specs/daemon-protocol.md:57-61).  A line that is too large loses
  it, and so does a malformed envelope: `ControlTheorems.IdIsLostExactlyWhen`.
- A granted lease can be dead before its client has done anything.  Over whole calls this takes a removal or a
  release after the grant (`ControlTheorems.AttachNamesLiveLease`); over lock regions a removal that was half done
  before the attach began is enough, and leaves the session without the lease (`RegistryRaces.GrantedLeaseIsDropped`).
  The exact condition, whenever the removal began, is `RegistryTheorems.LeaseLivesUntilStepEndsIt`.
- `Ping` is documented (docs/specs/daemon-protocol.md:214), but the dispatcher answers it with
  `E_UNKNOWN_TYPE`: `ControlTheorems.UnknownExactlyWhen`.
- The sum of resident bytes is a `u64` that wraps in release builds.  `MemoryTheorems.WrappedTotalMissesBudget`
  is an instance, `MemoryTheorems.BudgetMetExactlyWhenSumFits` the exact condition.
- Reference counts equal live leases in every run exactly when the key is never removed or never attached:
  `RegistryRaces.RefCountsExactExactlyWhen`.  A release that is overtaken by a removal loses a reference of the next
  session (`RegistryRaces.LateReleaseRace`); a removal that is overtaken by an attach leaves a session with a
  reference and no lease (`RegistryRaces.OvertakenRemoval`), which idle eviction never collects
  (`RegistryTheorems.SurplusIsForGood`).
- Idle eviction can drop a lease that a client holds.  A release that is overtaken between its lock regions by a
  removal and a new attach makes the new session look idle, and the next tick takes its lease
  (`RegistryIdle.TickDropsLease`).  `RegistryIdle.IdleIsFreeExactlyWhen` is the exact condition on the calls of a
  run.  Over whole calls a tick ends no lease (`Eviction.TickSparesLeases`).
- Single flight is per gate, not per key: a removal during a spawn breaks it (`RegistryRaces.TwoSpawnersRace`), and
  so does a spawn that fails (`RegistryRaces.FailedSpawnRace`).  `RegistryRaces.SingleFlightExactlyWhen` is the exact
  condition, `RegistryFlight.OneSpawnPerKey` what holds until then.
- A call matches answers by id alone.  Calls with one id, or a request of the server's own that happens to bear
  the id, get mixed up: `CallTheorems.OwnAnswersExactlyWhenDistinct`, `CallTheorems.ServerRequestMixesUp`.
- A call whose server has died is not told, because it holds the channel open itself.  It ends exactly when it has
  fallen behind or a message with its id is still unread: `CallTheorems.DeadServerEndsCallExactlyWhen`.
- A frame cut short looks like a clean end of the stream in most places: `FramingTheorems.CutFrame`.
- `add-lsp` on a file with two entries for one id may leave the old command in force:
  `ConfigEdits.AddSetsCommand`.

## Model

| member | source | states |
|---|---|---|
| RegistryProgress.NoStuckState | crates/lspee_daemon/src/registry.rs:223-333 | no deadlock: in every reachable state of any number of tasks, if a task is unfinished some task can step |
| RegistryProgress.NotStuck | crates/lspee_daemon/src/registry.rs:246-332 | for any unfinished caller, who can step next: a lock holder, the spawner it waits for, or itself |
| RegistryProgress.BoundedWaiting | crates/lspee_daemon/src/registry.rs:246-332 | with n attaches in a run, each goes round its loop at most n times and spawns at most once |
| RegistryProgress.StepDoesWork | crates/lspee_daemon/src/registry.rs:329-331 | a measure of the whole system that every step lowers, wake-ups included |
| RegistryProgress.RunsAreShort | crates/lspee_daemon/src/registry.rs:223-333 | an explicit bound on the length of every run, so every task finishes under every schedule in which each spawn and each answer of a server arrives |
| RegistryProgress.SilentSpawnerBlocks | crates/lspee_daemon/src/registry.rs:329-331 | and only then: while a spawner takes no step, nobody who waits at its gate can, whatever all others do |
| RegistryLocks.LocksStep | crates/lspee_daemon/src/registry.rs:246-265 | who holds which lock is a function of the program counters, kept by every step |
| RegistryLocks.GatesStep | crates/lspee_daemon/src/registry.rs:274-294 | every gate is started exactly while it has its one spawner, and waits are accounted for by epochs; kept by every step |
| RegistryLocks.RunKeepsLocksAndGates | crates/lspee_daemon/src/registry.rs:223-333 | both of these in every reachable state |
| RegistryTheorems.GateExclusion | crates/lspee_daemon/src/registry.rs:274-294 | a gate is started if and only if one task spawns under it, two never do, and whoever still waits has a started gate, also after the gate left the map |
| RegistryTheorems.CounterConservation | crates/lspee_daemon/src/registry.rs:233-236 | attach requests = spawned + reused + failed + in flight; whenever the session lock is free, ids issued = spawned + reused = live + released + dropped leases |
| RegistryTheorems.LeaseIdsAreFresh | crates/lspee_daemon/src/registry.rs:258-265 | with at most 2^64 attaches every insertion uses an id that was never in the map |
| RegistryTheorems.LeaseIdsDieForGood | crates/lspee_daemon/src/registry.rs:352-353 | an id that was released or dropped never comes back: every later release, call or notify finds nothing |
| RegistryTheorems.OneReleasePerLease | crates/lspee_daemon/src/registry.rs:352-361 | of any number of releases of one id, in any interleaving, at most one finds it |
| RegistryTheorems.RefCountsAreExact | crates/lspee_daemon/src/registry.rs:352-363 | until a removal of a key begins: reference count = live leases + attaches about to insert + releases between their two lock regions, so the `ref_count > 0` guard always holds |
| RegistryTheorems.SurplusIsForGood | crates/lspee_daemon/src/registry.rs:468-482 | a session with more references than users keeps them in every run until a removal of its key steps, so it never looks idle |
| RegistryTheorems.IdleSessionsHaveNoOldLeases | crates/lspee_daemon/src/registry.rs:457-482 | idle eviction by lock regions: a session that looks idle before a removal of its key begins has no lease, and every lease that a later removal drops was inserted after that moment |
| RegistryIdle.IdleIsFreeExactlyWhen | crates/lspee_daemon/src/registry.rs:352-482 | in every run of given calls a session that looks idle has no lease, if and only if none of them removes its key, or at most one attaches it, or none releases a lease that the attaches may be granted |
| RegistryIdle.LateReleaseMakesIdle | crates/lspee_daemon/src/registry.rs:352-363 | a schedule in which a session looks idle although a client was granted a lease on it and nobody released that: a removal and an attach overtake an older release |
| RegistryIdle.HalfRemovalMakesIdle | crates/lspee_daemon/src/registry.rs:352-363 | a schedule for the case that the released lease is the last one granted: the removal is only half done |
| RegistryIdle.TickDropsLease | crates/lspee_daemon/src/eviction.rs:44-72 | from there a marking and the first two lock regions of a removal drop the lease that the client holds |
| RegistryTheorems.LeaseLivesUntilStepEndsIt | crates/lspee_daemon/src/registry.rs:352-463 | over lock regions: a lease is live after any run if and only if no step of the run took it for a release or dropped the leases of its key for a removal, whenever that began |
| RegistryFlight.OneSpawnPerKey | crates/lspee_daemon/src/registry.rs:274-326 | in every reachable state in which no spawn for a key has failed and no removal of it is through, at most one spawn for it is in flight |
| RegistryTheorems.EndOfRun | crates/lspee_daemon/src/registry.rs:223-363 | a run that cannot go on has finished every task, holds no lock and no gate, and its counts add up |
| RegistryTypes.LeaseNamesClash | crates/lspee_daemon/src/registry.rs:214-220 | two lease numbers print the same id if and only if they agree modulo 2^64 |
| RegistryAccounting.IdsStep | crates/lspee_daemon/src/registry.rs:214-220 | live, released and dropped ids are disjoint, all issued, and as many as were inserted; kept by every step |
| RegistryAccounting.RefCountStep | crates/lspee_daemon/src/registry.rs:353-361 | only a removal of a key can change how far its reference count exceeds what accounts for it; for every step of every task |
| RegistryAccounting.CountersStep | crates/lspee_daemon/src/registry.rs:254-258 | the counter equations, kept by every step |
| RegistrySolo.CallsRefineSteps | crates/lspee_daemon/src/registry.rs:223-479 | a call that runs alone passes through its lock regions to the result that its whole-call function gives |
| RegistryRaces.RefCountsExactExactlyWhen | crates/lspee_daemon/src/registry.rs:248-363 | reference counts of a key are exact in every run of given calls if and only if none of them removes the key or none attaches it |
| RegistryRaces.OvertakenRemoval | crates/lspee_daemon/src/registry.rs:457-466 | for any run with an attach and a removal of one key: a schedule that ends with one reference and no lease |
| RegistryRaces.GrantedLeaseIsDropped | crates/lspee_daemon/src/registry.rs:458-463 | for any such run: a schedule in which a lease that was just granted is dropped by a removal that was half done before the attach began, and the session stays |
| RegistryRaces.LateReleaseRace | crates/lspee_daemon/src/registry.rs:352-363 | a reachable end state with one live lease and reference count zero, after a removal between two lock regions of a release |
| RegistryRaces.SingleFlightExactlyWhen | crates/lspee_daemon/src/registry.rs:274-326 | at most one spawn of a key is in flight in every run of given calls if and only if at most one of them attaches it, or at most two and none removes it |
| RegistryRaces.TwoSpawnersRace | crates/lspee_daemon/src/registry.rs:457-466 | for any run with two attaches and a removal of one key: a schedule with two spawns in flight |
| RegistryRaces.FailedSpawnRace | crates/lspee_daemon/src/registry.rs:288-326 | for any run with three attaches of one key: a schedule with two spawns in flight after the first failed |
| RegistryCalls.LeasesAreConserved | crates/lspee_daemon/src/registry.rs:248-363 | over every run of whole calls, each session's reference count is the number of its live leases and every lease has a session |
| RegistryCalls.RegistryIsBalanced | crates/lspee_daemon/src/registry.rs:197-207 | the same from the start of the daemon |
| RegistryCalls.AmidKeepsBalance | crates/lspee_daemon/src/registry.rs:352-482 | the same for one task whose calls are interleaved with any calls of others |
| RegistryCalls.LeaseLivesUntilEnded | crates/lspee_daemon/src/registry.rs:352-466 | over whole calls: a lease is live after them if and only if none of them releases it or removes its key |
| RegistryCalls.CallKeepsBalance | crates/lspee_daemon/src/registry.rs:352-482 | each kind of call keeps this balance |
| RegistryCalls.AcquireKeepsBalance | crates/lspee_daemon/src/registry.rs:223-333 | attaching keeps it in all three outcomes: reused, spawned, failed |
| RegistryCalls.RemoveKeepsBalance | crates/lspee_daemon/src/registry.rs:457-466 | removing a key takes its session and all its leases, and no other |
| RegistryCalls.NextIdIsNew | crates/lspee_daemon/src/registry.rs:214-220 | the next lease id is in no map and no history |
| RegistryCalls.ReleaseReturnsLeasesLeft | crates/lspee_daemon/src/registry.rs:352-363 | a release returns the number of leases that its session still has |
| RegistryCalls.IdleEvictionSparesLeases | crates/lspee_daemon/src/registry.rs:468-482 | over whole calls: a removal of a key marked idle drops only leases issued after the marking, whose ids were never in use before, and none if no attach came in between |
| Registry.SessionRegistry.AcquireOrSpawn | crates/lspee_daemon/src/registry.rs:223-333 | the new state of the whole registry and the lease returned, for reuse, spawn and failed spawn |
| Registry.SessionRegistry.ReleaseByLeaseId | crates/lspee_daemon/src/registry.rs:352-363 | the new state, and the references left or nothing |
| Registry.SessionRegistry.Remove | crates/lspee_daemon/src/registry.rs:457-466 | the new state of all three maps |
| Registry.SessionRegistry.IdleCandidates | crates/lspee_daemon/src/registry.rs:468-482 | marks exactly the sessions that are idle for the limit and returns exactly their handles |
| Registry.SessionRegistry.MarkTerminatingWithNotice | crates/lspee_daemon/src/registry.rs:445-455 | marks this one session, if it is there |
| Registry.SessionRegistry.ForwardByLeaseId | crates/lspee_daemon/src/registry.rs:372-436 | the outcome of a call or notify and which session is touched when |
| Registry.SessionRegistry.Reach | crates/lspee_daemon/src/registry.rs:373-397 | the part of it before the server: lease and session looked up, terminating sessions refused |
| Registry.SessionRegistry.NextLeaseId | crates/lspee_daemon/src/registry.rs:214-220 | the printed number, and that it is used up |
| Registry.SessionRegistry.MemorySnapshots | crates/lspee_daemon/src/registry.rs:493-510 | one snapshot per session, in any order, with the kinds of the clients that lease it |
| Registry.SessionRegistry.AllHandles | crates/lspee_daemon/src/registry.rs:484-491 | exactly the handles of the sessions, in any order |
| Eviction.FiresExactlyWhenDue | crates/lspee_daemon/src/eviction.rs:75-96 | for all tick times: the signal is due at a tick if and only if some earlier tick began a stretch without sessions that is at least the limit long |
| Eviction.SinceIsEarliestQuiet | crates/lspee_daemon/src/eviction.rs:38-39 | the idle timer is the time of the earliest tick, or the start, since which nothing ran |
| Eviction.ZeroLimit | crates/lspee_daemon/src/eviction.rs:78-91 | with limit zero the first tick without sessions is due |
| Eviction.EvictionLoop.Watch | crates/lspee_daemon/src/eviction.rs:38-102 | over a whole run the loop signals at the first tick that is due and at no other; never without a limit |
| Eviction.EvictionLoop.CheckDaemon | crates/lspee_daemon/src/eviction.rs:74-96 | the timer and the signal after one tick |
| Eviction.EvictionLoop.EvictIdleSessions | crates/lspee_daemon/src/eviction.rs:44-72 | the idle sessions at the moment of marking, and the registry after marking, removing and counting them with any calls of others in between |
| Eviction.TickSparesLeases | crates/lspee_daemon/src/eviction.rs:44-72 | over whole calls: a tick ends no lease; one from before is live after it if and only if no call of another task ended it |
| Eviction.QuietTickIsEviction | crates/lspee_daemon/src/eviction.rs:44-72 | with nothing in between exactly the idle sessions go and the lease map stays as it is |
| Eviction.EvictionLoop.OnTick | crates/lspee_daemon/src/eviction.rs:43-97 | both parts of a tick, with any calls of others in between |
| MemoryOrder.CompareIsTotalPreorder | crates/lspee_daemon/src/memory.rs:169-177 | the four-key comparator is total, transitive and antisymmetric up to ties |
| MemoryOrder.SortedSorts | crates/lspee_daemon/src/memory.rs:169-177 | the specified order is sorted and a permutation |
| MemoryOrder.SortedIsStable | crates/lspee_daemon/src/memory.rs:169-177 | samples that tie keep their order |
| MemoryOrder.SortCandidates | crates/lspee_daemon/src/memory.rs:169-177 | the array, sorted in place, is that stable order |
| MemoryOrder.SortedRanksOfPermutation | crates/lspee_daemon/src/memory.rs:169-177 | permuted inputs sort to the same ranks, position by position |
| MemoryOrder.SortedOfPermutation | crates/lspee_daemon/src/memory.rs:169-177 | and to the same list when nothing ties |
| Memory.SelectEvictions | crates/lspee_daemon/src/memory.rs:129-167 | the loops compute the selection: over-limit sessions in order, then the total phase on the rest, without duplicates |
| Memory.RetainOthers | crates/lspee_daemon/src/memory.rs:143-146 | one pass per selected key leaves exactly the other samples, in order |
| Memory.TakeUntilFits | crates/lspee_daemon/src/memory.rs:155-163 | how many samples the saturating running total takes from the front |
| Memory.DedupeByKey | crates/lspee_daemon/src/memory.rs:183-194 | the first sample of each key, in order |
| Memory.SumBytes | crates/lspee_daemon/src/memory.rs:150 | the sum modulo 2^64 |
| MemoryTheorems.SelectionPartitions | crates/lspee_daemon/src/memory.rs:129-167 | selection and survivors together are a permutation of the samples |
| MemoryTheorems.ShortestPrefix | crates/lspee_daemon/src/memory.rs:149-163 | the total phase takes the shortest prefix of the priority order whose removal meets the budget |
| MemoryTheorems.BudgetsAreMet | crates/lspee_daemon/src/memory.rs:129-167 | each survivor fits the session limit and all together fit the total limit |
| MemoryTheorems.BudgetMetExactlyWhenSumFits | crates/lspee_daemon/src/memory.rs:150-163 | with wrapping sums the total limit is met if and only if the bytes left after the session phase are below 2^64 |
| MemoryTheorems.WrappedTotalMissesBudget | crates/lspee_daemon/src/memory.rs:150 | two samples that wrap to zero: nothing is evicted at budget zero |
| MemoryTheorems.SecondRunSelectsNothing | crates/lspee_daemon/src/memory.rs:129-167 | a rerun on the survivors selects nothing |
| MemoryTheorems.PriorityIsRespected | crates/lspee_daemon/src/memory.rs:149-177 | the total phase never evicts a sample and keeps one that ranks strictly earlier |
| MemoryTheorems.OrderDoesNotMatter | crates/lspee_daemon/src/memory.rs:129-177 | number and bytes evicted are the same for every order of the samples, ties included |
| MemoryTheorems.SameSelectionWithoutTies | crates/lspee_daemon/src/memory.rs:129-177 | without ties the selected list is the same for every order |
| MemoryTheorems.LargerBudgetIsPrefix | crates/lspee_daemon/src/memory.rs:149-163 | raising the total limit gives a prefix of the old selection |
| MemoryTheorems.SelectionIsBothPhases | crates/lspee_daemon/src/memory.rs:166-194 | with distinct keys de-duplication removes nothing |
| MemoryMonitor.EvictSession | crates/lspee_daemon/src/memory.rs:197-245 | marks, removes and counts, with any calls of others in between |
| MemoryMonitor.CollectSamples | crates/lspee_daemon/src/memory.rs:98-127 | exactly one sample per session, with distinct keys |
| MemoryMonitor.Check | crates/lspee_daemon/src/memory.rs:45-56 | one sample per session of the snapshot, then the evictions of the selection, with any calls of others while memory is read and in between; with none, exactly the selected sessions go and what is left is within both budgets if the sum does not wrap |
| MemoryMonitor.EvictionsSpareOthers | crates/lspee_daemon/src/memory.rs:53-55 | the evictions keep the lease balance, and a lease on a session that was not selected lives on if and only if no call of others ended it |
| MemoryMonitor.EvictedAllEffect | crates/lspee_daemon/src/memory.rs:53-55 | after all evictions exactly the other sessions and their leases are left |
| Config.EffectiveConfig.ApplyPartial | crates/lspee_config/src/lib.rs:296-365 | merging a layer in place equals the fold over its entries |
| Config.EffectiveConfig.ApplyLspEntries | crates/lspee_config/src/lib.rs:298-325 | the loop over the entries, repeated and missing ids included |
| Config.Resolve | crates/lspee_config/src/lib.rs:186-208 | defaults, then user file, then project file |
| Config.LayersLastDefinitionWins | crates/lspee_config/src/lib.rs:296-365 | for any layers: a server is configured if and only if an entry names it, its key is its id, each of its fields and each top-level field is what the last definition says, else the default |
| Config.LastDefinitionWins | crates/lspee_config/src/lib.rs:298-325 | the same for one fold over entries, on top of anything |
| Config.LastSetIsLast | crates/lspee_config/src/lib.rs:310-324 | what "last" means, by positions |
| Config.TwoLayersAreOne | crates/lspee_config/src/lib.rs:191-199 | two layers in turn equal one combined layer |
| Config.MergeIsIdempotent | crates/lspee_config/src/lib.rs:296-365 | applying a layer twice equals once |
| Languages.LanguageRegistry.ApplyOverrides | crates/lspee_config/src/languages.rs:136-189 | overriding the catalog in place equals the fold over the entries |
| Languages.LoadRegistry | crates/lspee_config/src/languages.rs:108-124 | defaults, then user file, then project file |
| Languages.OverridesAccumulate | crates/lspee_config/src/languages.rs:162-186 | last command and arguments win while file extensions of all entries add up; root markers stay |
| ResolveLsp.FoldsAgree | crates/lspee_daemon/src/lib.rs:666-699 | the merge and the overridden catalog agree: resolving fails if and only if neither defaults nor layers name the id, else command and arguments are the overridden catalog's, empty and blank ones included |
| ResolveLsp.ResolveLspConfig | crates/lspee_daemon/src/lib.rs:649-704 | the look-up with its two fill-ins |
| ResolveLsp.ResolveForSpawn | crates/lspee_daemon/src/lib.rs:649-704 | the same end to end, from files to command |
| ConfigEdits.Document.AddLsp | crates/lspee_cli/src/commands/config.rs:161-198 | edits the first entry with the id, else appends one; whether it was found |
| ConfigEdits.Document.RemoveLsp | crates/lspee_cli/src/commands/config.rs:200-242 | what is left, and each of the three errors |
| ConfigEdits.RemoveAll | crates/lspee_cli/src/commands/config.rs:218-232 | the removal loop ends and is an order-preserving filter |
| ConfigEdits.AddSetsCommand | crates/lspee_cli/src/commands/config.rs:164-191 | add-lsp makes its command the merged one if and only if no later entry overrules it |
| ConfigEdits.AddSetsArgs | crates/lspee_cli/src/commands/config.rs:172-190 | the same for its arguments; with none given an entry that is there keeps its merged ones, and a new one has none |
| ConfigEdits.AddSetsCommandOnDistinctIds | crates/lspee_cli/src/commands/config.rs:164-191 | with one entry per id it always does |
| ConfigEdits.AddLeavesOthersAlone | crates/lspee_cli/src/commands/config.rs:164-191 | every other id keeps its merged entry, on any list |
| ConfigEdits.RemoveUndoesAdd | crates/lspee_cli/src/commands/config.rs:164-232 | removing an id that was new restores the list |
| Decimal.ValueOfPrint | crates/lspee_lsp/src/lib.rs:322 | reading a printed number gives the number |
| Decimal.ParseOfPrint | crates/lspee_lsp/src/lib.rs:353-357 | parsing a printed number gives it back if it is below 2^64 and fails otherwise |
| Framing.FrameReader.ReadFrame | crates/lspee_lsp/src/lib.rs:329-374 | the result and what is left of the stream, for every stream of bytes |
| Framing.FrameReader.ReadLine | crates/lspee_lsp/src/lib.rs:337-341 | up to and including the next newline; nothing only at the end |
| Framing.FrameReader.Run | crates/lspee_lsp/src/lib.rs:279-294 | every message up to the end or the first bad frame, in order |
| Framing.RunWriter | crates/lspee_lsp/src/lib.rs:253-275 | the frames of all messages that serialize, in order |
| FramingTheorems.HeaderBlock | crates/lspee_lsp/src/lib.rs:335-360 | for any header lines: the header ends at the first blank line and its last Content-Length counts |
| FramingTheorems.OtherHeadersDoNotMatter | crates/lspee_lsp/src/lib.rs:335-360 | other header lines before or after change nothing |
| FramingTheorems.FrameRoundTrip | crates/lspee_lsp/src/lib.rs:320-374 | an encoded frame reads as its body and leaves the rest of the stream |
| FramingTheorems.StreamRoundTrip | crates/lspee_lsp/src/lib.rs:279-294 | a stream of frames reads as their bodies, then as what follows |
| FramingTheorems.WriterToReader | crates/lspee_lsp/src/lib.rs:251-294 | what one side's writer task writes, the other side's reader task gets, once and in order |
| FramingTheorems.CutFrame | crates/lspee_lsp/src/lib.rs:329-374 | no strict prefix of a frame reads as a message, and exactly which cuts are errors |
| FramingTheorems.CutStream | crates/lspee_lsp/src/lib.rs:279-294 | a stream cut anywhere yields exactly the messages that arrived whole |
| FramingTheorems.OneLine | crates/lspee_lsp/src/lib.rs:336-360 | one header line, whole or cut by the end of the stream |
| CallMatching.OrderlyStep | crates/lspee_lsp/src/lib.rs:165-177 | every call has read without a gap since it subscribed and passed no message with its id; kept by every step |
| CallMatching.ApartStep | crates/lspee_lsp/src/lib.rs:159-166 | ids of active calls and open requests stay apart |
| CallMatching.AnsweredOnceStep | crates/lspee_lsp/src/lib.rs:253-292 | a request is answered at most once, and only after it was sent |
| CallMatching.OnlyAnswersStep | crates/lspee_lsp/src/lib.rs:165-177 | from where a call subscribed on, only its own answer bears its id |
| CallTheorems.ReturnsFirstMatch | crates/lspee_lsp/src/lib.rs:165-177 | in every run, whatever the ids, a call returns the first message with its id since it subscribed |
| CallTheorems.ReturnsItsAnswer | crates/lspee_lsp/src/lib.rs:159-178 | in every run that keeps ids apart, a call that returns returns the answer to its own request |
| CallTheorems.OwnAnswersExactlyWhenDistinct | crates/lspee_lsp/src/lib.rs:159-178 | all runs give all calls their own answers if and only if the ids are distinct, as long as the server avoids pending ids |
| CallTheorems.SharedIdMixesUp | crates/lspee_lsp/src/lib.rs:174-176 | for any two calls with one id, a run in which one takes the other's answer |
| CallTheorems.ServerRequestMixesUp | crates/lspee_lsp/src/lib.rs:174-176 | for any call, a run in which a message of the server's own passes for the answer |
| CallTheorems.AnswerIsAhead | crates/lspee_lsp/src/lib.rs:165-166 | subscribing before sending: no answer lies behind the cursor of a waiting call |
| CallTheorems.FinishesByReading | crates/lspee_lsp/src/lib.rs:168-177 | a call that has not fallen behind returns its answer by reading on alone |
| CallTheorems.AllAnswered | crates/lspee_lsp/src/lib.rs:251-294 | when nothing was lost and the server has answered everything, every waiting call has its answer ahead |
| CallTheorems.DeadServerEndsCallExactlyWhen | crates/lspee_lsp/src/lib.rs:168-177 | with the reader task gone, some run ends a waiting call if and only if it is more than 256 messages behind or a message with its id is unread |
| CallTheorems.WaitsForEver | crates/lspee_lsp/src/lib.rs:168-172 | otherwise it waits in every further run |
| Control.ControlConnection.Handle | crates/lspee_daemon/src/lib.rs:174-242 | the responses, the registry and the signal after any list of lines, with any calls of other tasks between lines and while a line is served |
| Control.ControlConnection.Round | crates/lspee_daemon/src/lib.rs:183-239 | one round of the loop |
| Control.ControlConnection.DispatchRequest | crates/lspee_daemon/src/lib.rs:251-285 | the response, the registry and the signal for each type of request |
| Control.ControlConnection.DispatchAttach | crates/lspee_daemon/src/lib.rs:288-430 | attach with each of its refusals, the session gone before it is looked up included; a lease is given back when its stream cannot be made |
| Control.ControlConnection.DispatchRelease | crates/lspee_daemon/src/lib.rs:433-472 | release, found or not |
| Control.ControlConnection.DispatchForward | crates/lspee_daemon/src/lib.rs:475-567 | call and notify, with any calls of others while the server works, and the error code read off the text of the error |
| Control.ReplyIsCalls | crates/lspee_daemon/src/lib.rs:251-285 | the registry sees nothing of a line but whole calls, at most two of its own |
| ControlTheorems.OneResponsePerLine | crates/lspee_daemon/src/lib.rs:184-241 | one response per consumed line, in order and with its id; nothing is consumed after an oversized line, a wrong version or an accepted shutdown, and only the latter is signalled |
| ControlTheorems.OnlyVersionOneIsDispatched | crates/lspee_daemon/src/lib.rs:204-233 | a line is dispatched if and only if it is a well-formed envelope with version exactly 1, despite the cut to 32 bits |
| ControlTheorems.WrongVersionCloses | crates/lspee_daemon/src/lib.rs:184-229 | for every line of JSON without version 1, a missing version included: exactly which are refused for the version and close the connection, and what the others get |
| ControlTheorems.IdIsLostExactlyWhen | crates/lspee_daemon/src/lib.rs:184-229 | a request's id is missing from its response if and only if the line is too large, or the envelope is malformed behind a version that passes |
| ControlTheorems.AttachNamesLiveLease | crates/lspee_daemon/src/lib.rs:336-420 | over whole calls: a granted attach names a lease that was never in use; it is live when the response is sent if and only if nobody removed its session or released it since the grant |
| ControlTheorems.AttachFindsItsSession | crates/lspee_daemon/src/lib.rs:347-361 | the refusal for a missing session needs a removal of that session in between |
| ControlTheorems.RefusedAttachLeavesNoLease | crates/lspee_daemon/src/lib.rs:288-430 | over whole calls: a refused attach leaves no lease behind, whatever others call meanwhile |
| ControlTheorems.ResponseTellsLeases | crates/lspee_daemon/src/lib.rs:288-472 | undisturbed, a granted attach adds the one new lease it names, a release takes the one it names and tells how many are left, every other response leaves the leases alone |
| ControlLedger.ConnectionLedger | crates/lspee_daemon/src/lib.rs:174-242 | alone on the daemon, keeping books by the responses gives exactly the live leases |
| ControlLedger.LedgerAmongOthers | crates/lspee_daemon/src/lib.rs:174-242 | among other clients that remove no session and release no lease of this one, every lease that its books show is live |
| ControlTheorems.ConnectionKeepsBalance | crates/lspee_daemon/src/lib.rs:174-242 | any connection, with any whole calls of others between and inside its lines, keeps reference counts equal to live leases |
| Shutdown.ShutdownAllSessions | crates/lspee_daemon/src/lib.rs:742-755 | every session that is found is removed; what is left was attached by others in the meantime |
| Shutdown.ShutdownLeavesNothing | crates/lspee_daemon/src/lib.rs:742-755 | when nobody attaches meanwhile, no session and no lease is left |

## Left out

- Registry.SessionRegistry.AcquireOrSpawn: as a whole call, when nobody spawns under the gate of the key; a call
  that has to wait for another's spawn is modelled in `RegistrySteps` only.
- RegistryCalls.LeasesAreConserved: over whole calls; over lock regions the exact condition is
  `RegistryRaces.RefCountsExactExactlyWhen`.
- RegistryCalls.AmidKeepsBalance: other tasks come in between whole calls, not between the lock regions of one;
  with those, `RegistryRaces.RefCountsExactExactlyWhen` says when reference counts stay exact.
- RegistryCalls.IdleEvictionSparesLeases: over whole calls; over lock regions see
  `RegistryTheorems.IdleSessionsHaveNoOldLeases` and `RegistryIdle.IdleIsFreeExactlyWhen`.
- Eviction.TickSparesLeases: over whole calls; over lock regions it is false (`RegistryIdle.TickDropsLease`).
- Eviction.EvictionLoop.EvictIdleSessions: calls of other tasks come in whole.
- Eviction.EvictionLoop.OnTick: calls of other tasks come in whole.
- ControlTheorems.AttachNamesLiveLease: over whole calls; over lock regions the exact condition is
  `RegistryTheorems.LeaseLivesUntilStepEndsIt`.
- ControlTheorems.RefusedAttachLeavesNoLease: over whole calls; when a session is found missing because a removal is
  half done, its lease stays until the removal's second lock region.
- ControlTheorems.ConnectionKeepsBalance: calls of other tasks come in whole.
- Shutdown.ShutdownLeavesNothing: from a balanced registry, and calls of other tasks come in whole.
- RegistryProgress.RunsAreShort: takes every spawn and every answer of a server to arrive. The daemon does not
  enforce that: a spawn waits for the answer to `initialize` (crates/lspee_daemon/src/lib.rs:714-735), which need
  not come (`CallTheorems.DeadServerEndsCallExactlyWhen`), and then `RegistryProgress.SilentSpawnerBlocks` applies.
  Steps are lock regions, not time; the fairness of the async runtime's locks, and a spawn that panics or is
  cancelled, are not modelled.
- MemoryTheorems.BudgetsAreMet: for samples whose sum fits 64 bits; debug builds panic instead of wrapping.
- MemoryMonitor.Check: the budgets are met when nothing comes in between; what other tasks start meanwhile is not
  in the sample.
- ResolveLsp.FoldsAgree: for layers that both folds read alike. The two look-ups differ in the user path when
  `HOME` is unset and in that one of them canonicalizes the project root.
- CallTheorems.ReturnsItsAnswer: one way for a single run, in which colliding ids may happen to go well; over all
  runs `CallTheorems.OwnAnswersExactlyWhenDistinct` goes both ways.
- ControlLedger.LedgerAmongOthers: one way; a lease that the books show as given back is known to be dead from
  `RegistryTheorems.LeaseIdsDieForGood`.
- Registry.SessionRegistry.MemorySnapshots: the order in which a hash map is walked is arbitrary.
- Languages.OverridesAccumulate: file extensions are a set, so their order is not modelled; `lsps_for_file` and
  the search for executables are not modelled.
- Framing.FrameReader.ReadFrame: the buffer for the body is taken to be available whatever its length.
- Control.ControlConnection.Handle: calls of other tasks come in whole; writing a response always succeeds; which
  payloads decode is a parameter.
- Control.ControlConnection.DispatchRequest: uptime, resident bytes and memory budgets in a stats response are
  inputs.
- Control.ControlConnection.DispatchForward: the text of a server's or channel's error is an input.
- Sockets, processes, `ps`, kill and wait timeouts, tracing and file access: the spawn result, resident bytes,
  stream endpoints and clock readings are inputs.
- JSON, TOML and SHA-256: bodies are bytes with a decoder that refuses the empty body, configurations are
  datatypes, configuration hashes are strings.
- `crates/lspee_daemon/src/stream.rs`, the CLI's other commands, the proxy and the MCP server: forwarding and
  argument handling.
- The counters and reference counts are unbounded, and so is the conversion of configured megabytes to bytes.
- The text of error messages and the details of notices.
