/** One check of the memory monitor against the registry (crates/lspee_daemon/src/memory.rs). */
module MemoryMonitor {
  import opened Wrappers
  import opened RegistryTypes
  import opened RegistrySteps
  import opened RegistryCalls
  import opened Registry
  import opened MemoryOrder
  import Memory
  import MemoryTheorems
  import Decimal

  const NOTICE := Notice(EVICTED_MEMORY, "Session evicted due to memory budget pressure", true)

  /** `evict_session`: mark with a notice, stop the server, remove, count. */
  function EvictedOne(st: Store, key: SessionKey): Store {
    var removed := RemoveCall(st, key);
    removed.(counters := removed.counters.(evictedMemory := removed.counters.evictedMemory + 1))
  }

  function EvictedAll(st: Store, samples: seq<MemorySample>): Store {
    if samples == [] then st else EvictedOne(EvictedAll(st, samples[..|samples| - 1]), samples[|samples| - 1].key)
  }

  /** The calls that evict `samples`. */
  function EvictionCalls(samples: seq<MemorySample>): seq<Call> {
    if samples == [] then []
    else
      var key := samples[|samples| - 1].key;
      EvictionCalls(samples[..|samples| - 1]) + [MarkOne(key, Some(NOTICE))] + [Discard(key)] + [CountMemoryEviction]
  }

  lemma {:induction false} EvictionCallsLength(samples: seq<MemorySample>)
    ensures |EvictionCalls(samples)| == 3 * |samples|
  {
    if samples != [] {
      EvictionCallsLength(samples[..|samples| - 1]);
    }
  }

  lemma {:induction false} EvictionCallMembers(samples: seq<MemorySample>, c: Call)
    ensures c in EvictionCalls(samples) ==>
              CallFits(c) && !c.Detach? && (c.Discard? ==> c.key in Memory.KeysOf(samples))
  {
    if samples != [] {
      var front, last := samples[..|samples| - 1], samples[|samples| - 1];
      EvictionCallMembers(front, c);
      assert samples == front + [last] && last in samples;
      assert forall s :: s in front ==> s in samples;
    }
  }

  /** The notice does not outlive its session. */
  lemma OneEviction(st: Store, key: SessionKey)
    ensures Do(RemoveCall(MarkCall(st, key, Some(NOTICE)), key), CountMemoryEviction) == EvictedOne(st, key)
  {
    assert MarkCall(st, key, Some(NOTICE)).sessions - {key} == st.sessions - {key};
  }

  lemma {:induction false} QuietEvictions(st: Store, samples: seq<MemorySample>)
    ensures DoAll(st, EvictionCalls(samples)) == EvictedAll(st, samples)
  {
    if samples != [] {
      var front, key := samples[..|samples| - 1], samples[|samples| - 1].key;
      var calls := EvictionCalls(front);
      QuietEvictions(st, front);
      DoAllSnoc(st, calls, MarkOne(key, Some(NOTICE)));
      DoAllSnoc(st, calls + [MarkOne(key, Some(NOTICE))], Discard(key));
      DoAllSnoc(st, calls + [MarkOne(key, Some(NOTICE))] + [Discard(key)], CountMemoryEviction);
      OneEviction(EvictedAll(st, front), key);
    }
  }

  function LeasesOutside(leases: Leases, keys: set<SessionKey>): Leases {
    map id | id in leases && leases[id].key !in keys :: leases[id]
  }

  /** The evicted sessions and their leases are gone. */
  lemma {:induction false} EvictedAllEffect(st: Store, samples: seq<MemorySample>)
    ensures var after := EvictedAll(st, samples);
            && after.sessions == st.sessions - Memory.KeysOf(samples)
            && after.leases == LeasesOutside(st.leases, Memory.KeysOf(samples))
            && after.counters.evictedMemory == st.counters.evictedMemory + |samples|
  {
    if samples != [] {
      var front, last := samples[..|samples| - 1], samples[|samples| - 1];
      EvictedAllEffect(st, front);
      assert samples == front + [last];
      assert Memory.KeysOf(samples) == Memory.KeysOf(front) + {last.key};
    } else {
      assert Memory.KeysOf(samples) == {};
    }
  }

  function SampleOf(snapshot: MemorySnapshot, rssBytes: nat): MemorySample {
    MemorySample(snapshot.handle.key, rssBytes, snapshot.refCount, snapshot.idleFor, snapshot.clientKinds)
  }

  /** One sample per session of a registry; `rss` is what `ps` reports, zero if it reports nothing. */
  ghost predicate Samples(st: Store, samples: seq<MemorySample>, rss: SessionHandle -> nat, now: nat) {
    && Memory.DistinctKeys(samples)
    && Memory.KeysOf(samples) == st.sessions.Keys
    && forall s :: s in samples && s.key in st.sessions ==>
                     s == SampleOf(SnapshotOf(st, s.key, now), rss(st.sessions[s.key].handle))
  }

  lemma EveryKeyIsSampled(samples: seq<MemorySample>, order: seq<SessionKey>)
    requires |samples| == |order| && forall j :: 0 <= j < |order| ==> samples[j].key == order[j]
    ensures forall k :: k in order ==> k in Memory.KeysOf(samples)
  {
    forall k | k in order ensures k in Memory.KeysOf(samples) {
      var j :| 0 <= j < |order| && order[j] == k;
      assert samples[j] in samples;
    }
  }

  /** Snapshots in the order of the keys `order`, sampled one by one. */
  lemma SampledInOrder(
    st: Store, snapshots: seq<MemorySnapshot>, order: seq<SessionKey>, samples: seq<MemorySample>,
    rss: SessionHandle -> nat, now: nat
  )
    requires Conserved(st) && |samples| == |snapshots| == |order|
    requires forall j :: 0 <= j < |order| ==> order[j] in st.sessions && snapshots[j] == SnapshotOf(st, order[j], now)
    requires forall j, l :: 0 <= j < l < |order| ==> order[j] != order[l]
    requires forall k :: k in st.sessions ==> k in order
    requires forall j :: 0 <= j < |samples| ==> samples[j] == SampleOf(snapshots[j], rss(snapshots[j].handle))
    ensures Samples(st, samples, rss, now)
  {
    assert forall j :: 0 <= j < |order| ==> samples[j].key == order[j];
    EveryKeyIsSampled(samples, order);
  }

  method CollectSamples(registry: SessionRegistry, rss: SessionHandle -> nat, now: nat)
    returns (samples: seq<MemorySample>)
    requires Conserved(registry.Contents())
    ensures Samples(registry.Contents(), samples, rss, now)
  {
    var snapshots, order := registry.MemorySnapshots(now);
    samples := [];
    for j := 0 to |snapshots|
      invariant |samples| == j
      invariant forall l :: 0 <= l < j ==> samples[l] == SampleOf(snapshots[l], rss(snapshots[l].handle))
    {
      samples := samples + [SampleOf(snapshots[j], rss(snapshots[j].handle))];
    }
    SampledInOrder(registry.Contents(), snapshots, order, samples, rss, now);
  }

  /** `evict_session`, with other tasks' calls before each of its own. */
  method EvictSession(registry: SessionRegistry, sample: MemorySample, ghost st: Store, ghost own: seq<Call>,
                      windows: seq<seq<Call>>, j: nat)
    requires Calm(registry.Contents()) && |own| == j
    requires registry.Contents() == DoAll(st, Amid(own, windows))
    modifies registry
    ensures Calm(registry.Contents())
    ensures var calls := own + [MarkOne(sample.key, Some(NOTICE))] + [Discard(sample.key)] + [CountMemoryEviction];
            registry.Contents() == DoAll(st, Amid(calls, windows))
  {
    ghost var mark := MarkOne(sample.key, Some(NOTICE));
    AmidStep(st, own, mark, windows);
    AmidStep(st, own + [mark], Discard(sample.key), windows);
    AmidStep(st, own + [mark] + [Discard(sample.key)], CountMemoryEviction, windows);
    registry.PerformAfter(Window(windows, j), MarkOne(sample.key, Some(NOTICE)));
    registry.PerformAfter(Window(windows, j + 1), Discard(sample.key));
    registry.PerformAfter(Window(windows, j + 2), CountMemoryEviction);
  }

  method EvictSessions(registry: SessionRegistry, evictions: seq<MemorySample>, windows: seq<seq<Call>>)
    requires Calm(registry.Contents())
    modifies registry
    ensures Calm(registry.Contents())
    ensures registry.Contents() == DoAll(old(registry.Contents()), Amid(EvictionCalls(evictions), windows))
  {
    ghost var st := registry.Contents();
    for j := 0 to |evictions|
      invariant Calm(registry.Contents())
      invariant registry.Contents() == DoAll(st, Amid(EvictionCalls(evictions[..j]), windows))
    {
      assert evictions[..j + 1][..j] == evictions[..j];
      EvictionCallsLength(evictions[..j]);
      EvictSession(registry, evictions[j], st, EvictionCalls(evictions[..j]), windows, 3 * j);
    }
    assert evictions[..|evictions|] == evictions;
  }

  /** Every session of `st` fits the session limit and `kept`, the samples of its sessions, the total limit. */
  ghost predicate WithinBudgets(
    st: Store, kept: seq<MemorySample>, settings: Memory.Settings, rss: SessionHandle -> nat
  ) {
    && st.sessions.Keys == Memory.KeysOf(kept)
    && (forall k :: k in st.sessions ==> exists s :: s in kept && s.rssBytes == rss(st.sessions[k].handle))
    && (settings.maxSessionBytes.Some? ==> forall s :: s in kept ==> s.rssBytes <= settings.maxSessionBytes.value)
    && (settings.maxTotalBytes.Some? ==> Memory.Total(kept) <= settings.maxTotalBytes.value)
  }

  /**
   One check: snapshot, read, select, evict.  Other tasks call `reading` while the servers' memory is read, and
   `windows` before each eviction call.  With nothing in between exactly the selected sessions go, and the ones that
   remain meet both budgets.
   */
  method Check(registry: SessionRegistry, settings: Memory.Settings, rss: SessionHandle -> nat, now: nat,
               reading: seq<Call>, windows: seq<seq<Call>>)
    returns (ghost samples: seq<MemorySample>)
    requires Calm(registry.Contents()) && Conserved(registry.Contents())
    modifies registry
    ensures Samples(old(registry.Contents()), samples, rss, now)
    ensures var calls := EvictionCalls(Memory.Selection(samples, settings));
            registry.Contents() == DoAll(DoAll(old(registry.Contents()), reading), Amid(calls, windows))
    ensures reading == [] && NoWindows(windows) ==>
              registry.Contents() == EvictedAll(old(registry.Contents()), Memory.Selection(samples, settings))
    ensures reading == [] && NoWindows(windows) && MemoryTheorems.FitsU64(samples) ==>
              WithinBudgets(registry.Contents(), Memory.Survivors(samples, settings), settings, rss)
  {
    ghost var st := registry.Contents();
    var collected := CollectSamples(registry, rss, now);
    samples := collected;
    // The samples are of the snapshot, whatever has become of the registry by the time they are complete.
    registry.PerformAll(reading);
    var evictions := Memory.SelectEvictions(collected, settings);
    EvictSessions(registry, evictions, windows);
    if reading == [] && NoWindows(windows) {
      AmidNothing(EvictionCalls(evictions), windows);
      QuietEvictions(st, evictions);
      if MemoryTheorems.FitsU64(samples) {
        SurvivorsFit(st, samples, settings, rss, now);
      }
    }
  }

  /**
   Whatever other tasks call meanwhile: the evictions keep the lease balance, and a lease on a session that was
   not selected lives on exactly when no call of others ended it.
   */
  lemma EvictionsSpareOthers(st: Store, selected: seq<MemorySample>, windows: seq<seq<Call>>, id: string)
    requires Balanced(st) && id in st.leases && st.leases[id].key !in Memory.KeysOf(selected)
    requires forall j, c :: 0 <= j < |EvictionCalls(selected)| && c in Window(windows, j) ==> CallFits(c)
    requires DoAll(st, Amid(EvictionCalls(selected), windows)).leaseSeq <= Decimal.TWO_TO_THE_64 + 1
    ensures var after, own := DoAll(st, Amid(EvictionCalls(selected), windows)), EvictionCalls(selected);
            && Balanced(after)
            && (id in after.leases <==> !EndedByOthers(own, windows, id, st.leases[id].key))
  {
    var own := EvictionCalls(selected);
    forall c | c in own ensures CallFits(c) && !Ends(c, id, st.leases[id].key) {
      EvictionCallMembers(selected, c);
    }
    AmidKeepsBalance(st, own, windows);
    OthersDecide(st, own, windows, id);
  }

  lemma SurvivorsFit(
    st: Store, samples: seq<MemorySample>, settings: Memory.Settings, rss: SessionHandle -> nat, now: nat
  )
    requires Samples(st, samples, rss, now) && MemoryTheorems.FitsU64(samples)
    ensures WithinBudgets(EvictedAll(st, Memory.Selection(samples, settings)), Memory.Survivors(samples, settings),
                          settings, rss)
  {
    var chosen, kept := Memory.Selection(samples, settings), Memory.Survivors(samples, settings);
    var after := EvictedAll(st, chosen);
    EvictedAllEffect(st, chosen);
    KeysLeft(st, samples, settings, rss, now);
    MemoryTheorems.BudgetsAreMet(samples, settings);
    MemoryTheorems.WithoutMembers(samples, Memory.KeysOf(chosen));
    forall k | k in after.sessions ensures exists s :: s in kept && s.rssBytes == rss(after.sessions[k].handle) {
      assert k in Memory.KeysOf(kept);
      var s :| s in kept && s.key == k;
      assert s.rssBytes == rss(after.sessions[k].handle);
    }
  }

  lemma KeysLeft(
    st: Store, samples: seq<MemorySample>, settings: Memory.Settings, rss: SessionHandle -> nat, now: nat
  )
    requires Samples(st, samples, rss, now)
    ensures st.sessions.Keys - Memory.KeysOf(Memory.Selection(samples, settings)) ==
            Memory.KeysOf(Memory.Survivors(samples, settings))
  {
    var chosen, kept := Memory.Selection(samples, settings), Memory.Survivors(samples, settings);
    MemoryTheorems.WithoutMembers(samples, Memory.KeysOf(chosen));
    forall k | k in st.sessions.Keys - Memory.KeysOf(chosen) ensures k in Memory.KeysOf(kept) {
      assert k in Memory.KeysOf(samples);
      var s :| s in samples && s.key == k;
      assert s in kept;
    }
  }
}
