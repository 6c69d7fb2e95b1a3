/**
 `SessionRegistry` (crates/lspee_daemon/src/registry.rs) as a class.  Each method runs as if alone;
 `RegistrySolo.CallsRefineSteps` ties that to the lock regions, `RegistryCalls` says what it keeps.
 */
module Registry {
  import opened Wrappers
  import opened RegistryTypes
  import opened RegistrySteps
  import opened RegistryAccounting
  import opened RegistryCalls

  datatype MemorySnapshot = MemorySnapshot(
    handle: SessionHandle,
    refCount: nat,
    idleFor: nat,
    clientKinds: set<ClientKind>
  )

  /** The kinds of the clients that hold a lease on a key. */
  function LeaseClientKinds(leases: Leases, key: SessionKey): set<ClientKind> {
    set id | id in leases && leases[id].key == key && leases[id].clientKind.Some? :: leases[id].clientKind.value
  }

  function SnapshotOf(st: Store, key: SessionKey, now: nat): MemorySnapshot
    requires key in st.sessions
  {
    var r := st.sessions[key];
    MemorySnapshot(r.handle, r.refCount, Elapsed(now, r.lastUsed), LeaseClientKinds(st.leases, r.handle.key))
  }

  lemma GateIsFree(st: Store, key: SessionKey)
    requires Calm(st) && key in st.spawnGates
    ensures st.spawnGates[key] < |st.gates| && !st.gates[st.spawnGates[key]].started
  {
    assert !GateAt(st, st.spawnGates[key]).started;
  }

  class SessionRegistry {
    var sessions: map<SessionKey, SessionRecord>
    var leases: Leases
    var spawnGates: map<SessionKey, GateId>
    var gates: seq<Gate>
    var counters: Counters
    var leaseSeq: nat
    const idleTtl: nat
    ghost var released: set<string>
    ghost var dropped: set<string>

    ghost function Contents(): Store
      reads this
    {
      Store(sessions, leases, spawnGates, gates, counters, leaseSeq, idleTtl, released, dropped)
    }

    constructor (ttl: nat)
      ensures Contents() == EmptyStore(ttl)
    {
      sessions, leases, spawnGates, gates := map[], map[], map[], [];
      counters, leaseSeq, idleTtl := NO_COUNTS, 1, ttl;
      released, dropped := {}, {};
    }

    method NextLeaseId() returns (id: string)
      modifies this`leaseSeq
      ensures id == LeaseName(old(leaseSeq)) && leaseSeq == old(leaseSeq) + 1
    {
      id := LeaseName(leaseSeq);
      leaseSeq := leaseSeq + 1;
    }

    /** The counter bump and gate look-up at the start of `acquire_or_spawn`. */
    method EnterSpawnGate(key: SessionKey) returns (gate: GateId)
      modifies this
      ensures Contents() == EnterGate(old(Contents()), key) && gate == spawnGates[key]
    {
      counters := counters.(attach := counters.attach + 1);
      if key !in spawnGates {
        gates := gates + [Gate(false, 0)];
        spawnGates := spawnGates[key := |gates| - 1];
      }
      gate := spawnGates[key];
    }

    method InsertLease(key: SessionKey, kind: Option<ClientKind>) returns (id: string)
      modifies this
      ensures Contents() == IssueLease(old(Contents()), key, kind) && id == LeaseName(old(leaseSeq))
    {
      id := NextLeaseId();
      leases := leases[id := LeaseRecord(key, kind)];
    }

    /** Check and set `started`; after the spawn clear it and wake the waiters. */
    method PassGate(gate: GateId)
      requires gate < |gates| && !gates[gate].started
      modifies this`gates
      ensures Contents() == Woke(old(Contents()), gate)
    {
      ghost var before := gates;
      gates := gates[gate := gates[gate].(started := true)];
      gates := gates[gate := Gate(false, gates[gate].epoch + 1)];
      assert gates == before[gate := Gate(false, before[gate].epoch + 1)];
    }

    /**
     `spawned` is the result of the spawn closure, used only if it is called.  With the gate free the
     loop is left in its first round.
     */
    method AcquireOrSpawn(key: SessionKey, kind: Option<ClientKind>, spawned: Option<SessionHandle>, now: nat)
      returns (lease: Option<string>)
      requires key in spawnGates ==> spawnGates[key] < |gates| && !gates[spawnGates[key]].started
      modifies this
      ensures Contents() == AcquireCall(old(Contents()), key, kind, spawned, now)
      ensures lease == if AcquireSucceeds(old(Contents()), key, spawned) then Some(LeaseName(old(leaseSeq))) else None
    {
      var gate := EnterSpawnGate(key);
      ghost var entered := Contents();
      if key in sessions {
        sessions := sessions[key := Joined(sessions[key], now)];
        counters := counters.(reused := counters.reused + 1);
        var id := InsertLease(key, kind);
        assert Contents() == Reuse(entered, key, kind, now);
        return Some(id);
      }
      PassGate(gate);
      ghost var woken := Contents();
      if spawned.None? {
        spawnGates := spawnGates - {key};
        return None;
      }
      // No other call ran since the look-up, so the record is always a new one.
      sessions := sessions[key := Joined(NewRecord(spawned.value, now), now)];
      counters := counters.(spawned := counters.spawned + 1);
      var id := InsertLease(key, kind);
      assert Contents() == JoinNew(woken, key, kind, spawned.value, now);
      return Some(id);
    }

    method ReleaseByLeaseId(id: string, now: nat) returns (left: Option<nat>)
      modifies this
      ensures Contents() == ReleaseCall(old(Contents()), id, now)
      ensures left == if id !in old(leases) then None else Some(RefCountOf(Contents(), old(leases)[id].key))
    {
      if id !in leases {
        return None;
      }
      var key := leases[id].key;
      leases := leases - {id};
      released := released + {id};
      if key in sessions {
        sessions := sessions[key := Left(sessions[key], now)];
        return Some(sessions[key].refCount);
      }
      return Some(0);
    }

    method Remove(key: SessionKey)
      modifies this
      ensures Contents() == RemoveCall(old(Contents()), key)
    {
      sessions := sessions - {key};
      dropped := dropped + LeaseIdsOn(leases, key);
      leases := LeasesWithout(leases, key);
      spawnGates := spawnGates - {key};
    }

    /** Marks the idle sessions; the handles come in the order of the hash map, that is, in any order. */
    method IdleCandidates(now: nat) returns (handles: seq<SessionHandle>)
      modifies this
      ensures Contents() == IdleCall(old(Contents()), now)
      ensures |handles| == |IdleKeys(old(Contents()), now)|
      ensures forall k :: k in IdleKeys(old(Contents()), now) ==> old(sessions)[k].handle in handles
      ensures forall h :: h in handles ==>
                            exists k :: k in IdleKeys(old(Contents()), now) && old(sessions)[k].handle == h
    {
      ghost var before := Contents();
      handles := [];
      var idle := set k | k in sessions && IsIdle(sessions[k], now, idleTtl);
      ghost var all := idle;
      assert all == IdleKeys(before, now);
      while idle != {}
        invariant idle <= all && |handles| + |idle| == |all|
        invariant forall k :: k in all - idle ==> before.sessions[k].handle in handles
        invariant forall h :: h in handles ==> exists k :: k in all && before.sessions[k].handle == h
        invariant Contents() == before
        decreases |idle|
      {
        var k :| k in idle;
        handles := handles + [sessions[k].handle];
        idle := idle - {k};
      }
      sessions := MarkIdle(sessions, now, idleTtl);
    }

    method MarkTerminatingWithNotice(key: SessionKey, notice: Option<Notice>)
      modifies this
      ensures Contents() == MarkCall(old(Contents()), key, notice)
    {
      if key in sessions {
        sessions := sessions[key := Marked(sessions[key], notice)];
      }
    }

    method Touch(key: SessionKey, now: nat)
      modifies this
      ensures Contents() == TouchCall(old(Contents()), key, now)
    {
      if key in sessions {
        sessions := sessions[key := Touched(sessions[key], now)];
      }
    }

    /** Up to where a request is handed to the server. */
    method Reach(id: string, now: nat) returns (r: Reached)
      modifies this
      ensures (Contents(), r) == ReachCall(old(Contents()), id, now)
    {
      if id !in leases || leases[id].key !in sessions {
        return Missing;
      }
      var key := leases[id].key;
      if sessions[key].terminating {
        return Ending(sessions[key].notice);
      }
      Touch(key, now);
      return Ready(key);
    }

    /** `call_by_lease_id` and `notify_by_lease_id`: they differ only in what is sent to the server. */
    method ForwardByLeaseId(id: string, now: nat, answeredAt: Option<nat>) returns (r: Forwarded)
      modifies this
      ensures (Contents(), r) == ForwardCall(old(Contents()), id, now, answeredAt)
    {
      var reached := Reach(id, now);
      match reached
      case Missing => return NoLease;
      case Ending(notice) => return SessionEnding(notice);
      case Ready(key) =>
        if answeredAt.None? {
          return ServerFailed;
        }
        Touch(key, answeredAt.value);
        return Answer;
    }

    /** In any order. */
    method AllHandles() returns (handles: seq<SessionHandle>)
      ensures forall k :: k in sessions ==> sessions[k].handle in handles
      ensures forall h :: h in handles ==> exists k :: k in sessions && sessions[k].handle == h
    {
      handles := [];
      var todo := sessions.Keys;
      while todo != {}
        invariant todo <= sessions.Keys
        invariant forall k :: k in sessions.Keys - todo ==> sessions[k].handle in handles
        invariant forall h :: h in handles ==> exists k :: k in sessions && sessions[k].handle == h
        decreases |todo|
      {
        var k :| k in todo;
        handles := handles + [sessions[k].handle];
        todo := todo - {k};
      }
    }

    method IncrementIdleGc()
      modifies this`counters
      ensures counters == old(counters).(gcIdle := old(counters).gcIdle + 1)
    {
      counters := counters.(gcIdle := counters.gcIdle + 1);
    }

    method IncrementMemoryEviction()
      modifies this`counters
      ensures counters == old(counters).(evictedMemory := old(counters).evictedMemory + 1)
    {
      counters := counters.(evictedMemory := counters.evictedMemory + 1);
    }

    /** One snapshot per session, in any order. */
    method MemorySnapshots(now: nat) returns (snapshots: seq<MemorySnapshot>, ghost order: seq<SessionKey>)
      ensures |snapshots| == |sessions| && (forall k :: k in sessions ==> SnapshotOf(Contents(), k, now) in snapshots)
      ensures |order| == |snapshots|
      ensures forall j :: 0 <= j < |order| ==>
                            order[j] in sessions && snapshots[j] == SnapshotOf(Contents(), order[j], now)
      ensures forall j, l :: 0 <= j < l < |order| ==> order[j] != order[l]
      ensures forall k :: k in sessions ==> k in order
    {
      snapshots, order := [], [];
      var todo := sessions.Keys;
      while todo != {}
        invariant todo <= sessions.Keys && |snapshots| == |order| && |order| + |todo| == |sessions.Keys|
        invariant forall j :: 0 <= j < |order| ==>
                                && order[j] in sessions.Keys - todo
                                && snapshots[j] == SnapshotOf(Contents(), order[j], now)
        invariant forall j, l :: 0 <= j < l < |order| ==> order[j] != order[l]
        invariant forall k :: k in sessions.Keys - todo ==> k in order && SnapshotOf(Contents(), k, now) in snapshots
        decreases |todo|
      {
        var k :| k in todo;
        var r := sessions[k];
        var kinds := LeaseClientKinds(leases, r.handle.key);
        snapshots := snapshots + [MemorySnapshot(r.handle, r.refCount, Elapsed(now, r.lastUsed), kinds)];
        order := order + [k];
        todo := todo - {k};
      }
    }

    /** Any whole call of another task. */
    method Perform(call: Call)
      requires Calm(Contents())
      modifies this
      ensures Contents() == Do(old(Contents()), call)
    {
      match call
      case Attach(key, kind, spawned, now) =>
        if key in spawnGates {
          GateIsFree(Contents(), key);
        }
        var _ := AcquireOrSpawn(key, kind, spawned, now);
      case Detach(id, now) =>
        var _ := ReleaseByLeaseId(id, now);
      case Discard(key) =>
        Remove(key);
      case MarkIdles(now) =>
        var _ := IdleCandidates(now);
      case MarkOne(key, notice) =>
        MarkTerminatingWithNotice(key, notice);
      case Send(id, now, answeredAt) =>
        var _ := ForwardByLeaseId(id, now, answeredAt);
      case Refresh(key, now) =>
        Touch(key, now);
      case CountIdleGc =>
        IncrementIdleGc();
      case CountMemoryEviction =>
        IncrementMemoryEviction();
    }

    /** A call of the running task, after the calls `window` of other tasks. */
    method PerformAfter(window: seq<Call>, call: Call)
      requires Calm(Contents())
      modifies this
      ensures Contents() == Do(DoAll(old(Contents()), window), call) && Calm(Contents())
    {
      PerformAll(window);
      CallKeepsCalm(Contents(), call);
      Perform(call);
    }

    method PerformAll(calls: seq<Call>)
      requires Calm(Contents())
      modifies this
      ensures Contents() == DoAll(old(Contents()), calls) && Calm(Contents())
    {
      var i := 0;
      while i < |calls|
        invariant i <= |calls| && Calm(Contents())
        invariant DoAll(Contents(), calls[i..]) == DoAll(old(Contents()), calls)
        decreases |calls| - i
      {
        CallKeepsCalm(Contents(), calls[i]);
        assert calls[i..][1..] == calls[i + 1..];
        Perform(calls[i]);
        i := i + 1;
      }
    }
  }
}
