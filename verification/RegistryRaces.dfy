/**
 What is lost when lock regions of calls for one key interleave: the runs that show it, and the exact
 conditions under which it cannot happen.
 */
module RegistryRaces {
  import opened Wrappers
  import opened RegistryTypes
  import opened RegistrySteps
  import opened RegistryProgress
  import opened RegistryAccounting
  import opened RegistryCalls
  import opened RegistrySolo
  import opened RegistryTheorems
  import opened RegistryFlight

  lemma {:induction false} RunsCompose(s: State, a: seq<Event>, b: seq<Event>)
    requires IsRun(s, a) && IsRun(After(s, a), b)
    ensures IsRun(s, a + b) && After(s, a + b) == After(After(s, a), b)
    decreases |a|
  {
    if a == [] {
      assert a + b == b;
    } else {
      RunsCompose(Next(s, a[0]), a[1..], b);
      assert (a + b)[0] == a[0] && (a + b)[1..] == a[1..] + b;
    }
  }

  lemma OneEvent(s: State, e: Event)
    requires Allowed(s, e)
    ensures IsRun(s, [e]) && After(s, [e]) == Next(s, e)
  {
    assert [e][1..] == [];
  }

  /** A run of one whole call after a run that leaves the locks free. */
  lemma ThenCall(s0: State, run: seq<Event>, t: Tid, i: Input) returns (longer: seq<Event>)
    requires IsRun(s0, run) && t < |After(s0, run).tasks|
    requires AtStart(After(s0, run).tasks[t]) && Fits(After(s0, run).tasks[t], i)
    requires After(s0, run).sessionsLock == FREE && After(s0, run).leasesLock == FREE
    requires After(s0, run).tasks[t].Acquire? ==> GateFree(After(s0, run).store, After(s0, run).tasks[t].key)
    ensures IsRun(s0, longer)
    ensures var s, s' := After(s0, run), After(s0, longer);
            && s'.store == WholeCall(s.store, s.tasks[t], i)
            && s'.sessionsLock == FREE && s'.leasesLock == FREE
            && |s'.tasks| == |s.tasks| && Finished(s'.tasks[t])
            && (s.tasks[t].Acquire? && AcquireSucceeds(s.store, s.tasks[t].key, i.spawned) ==>
                  IsGranted(s'.tasks[t], s.store.leaseSeq))
            && forall u :: 0 <= u < |s.tasks| && u != t ==> s'.tasks[u] == s.tasks[u]
  {
    var s := After(s0, run);
    CallsRefineSteps(s, t, i);
    var more := Alone(t, i, Regions(s.store, s.tasks[t], i));
    RunsCompose(s0, run, more);
    longer := run + more;
  }

  lemma ThenStep(s0: State, run: seq<Event>, e: Event) returns (longer: seq<Event>)
    requires IsRun(s0, run) && Allowed(After(s0, run), e)
    ensures IsRun(s0, longer) && After(s0, longer) == Next(After(s0, run), e)
  {
    OneEvent(After(s0, run), e);
    RunsCompose(s0, run, [e]);
    longer := run + [e];
  }

  function Inp(k: SessionKey): Input {
    Input(0, Some(SessionHandle(k, 0)), true)
  }

  /** `n` lock regions of a task in a row, after a run that leaves the locks free. */
  lemma ThenMoves(s0: State, run: seq<Event>, t: Tid, i: Input, n: nat) returns (longer: seq<Event>)
    requires IsRun(s0, run) && t < |After(s0, run).tasks| && AtStart(After(s0, run).tasks[t])
    requires After(s0, run).sessionsLock == FREE && After(s0, run).leasesLock == FREE
    requires Fits(After(s0, run).tasks[t], i)
    requires forall j :: 0 <= j < n ==> CanMove(Moves(After(s0, run).store, After(s0, run).tasks[t], i, j))
    ensures IsRun(s0, longer)
    ensures var s, s' := After(s0, run), After(s0, longer);
            var m := Moves(s.store, s.tasks[t], i, n);
            && s'.store == m.store && s'.tasks == s.tasks[t := m.task] && SoloLocks(s', t)
  {
    var s := After(s0, run);
    SoloRun(s, t, i, n);
    RunsCompose(s0, run, Alone(t, i, n));
    longer := run + Alone(t, i, n);
  }

  // ----- Reference counts

  function StartState(tasks: seq<Task>): State {
    State(EmptyStore(300), FREE, FREE, tasks)
  }

  function NewAcquire(k: SessionKey): Task {
    Acquire(k, None, Counting, 0, 0, 0)
  }

  function RaceTasks(k: SessionKey): seq<Task> {
    [NewAcquire(k), Release(LeaseName(1), TakingLease), Remove(k, DroppingSession), NewAcquire(k)]
  }

  /** An attach, then the first lock region of the release of its lease. */
  lemma HalfReleased(k: SessionKey) returns (s0: State, run: seq<Event>)
    ensures Reachable(s0, run)
    ensures var s := After(s0, run);
            && s.sessionsLock == FREE && s.leasesLock == FREE && s.store.leases == map[] && |s.tasks| == 4
            && Finished(s.tasks[0]) && s.tasks[1] == Release(LeaseName(1), Leaving(k))
            && s.tasks[2] == Remove(k, DroppingSession) && s.tasks[3] == NewAcquire(k)
  {
    s0 := StartState(RaceTasks(k));
    run := ThenCall(s0, [], 0, Inp(k));
    FirstAttach(k, Inp(k));
    TakeLast(After(s0, run).store, LeaseName(1), k);
    run := ThenStep(s0, run, Event(1, Inp(k)));
  }

  /** ... then a removal and a new attach. */
  lemma Overtaken(k: SessionKey) returns (s0: State, run: seq<Event>)
    ensures Reachable(s0, run)
    ensures var s := After(s0, run);
            && s.sessionsLock == FREE && s.leasesLock == FREE && |s.tasks| == 4
            && LeasesOn(s.store.leases, k) == 1 && k in s.store.sessions && s.store.sessions[k].refCount == 1
            && Finished(s.tasks[0]) && s.tasks[1] == Release(LeaseName(1), Leaving(k))
            && Finished(s.tasks[2]) && Finished(s.tasks[3])
  {
    s0, run := HalfReleased(k);
    run := ThenCall(s0, run, 2, Inp(k));
    var st := After(s0, run).store;
    assert st.leases == map[] && k !in st.sessions && k !in st.spawnGates;
    run := ThenCall(s0, run, 3, Inp(k));
    SecondAttach(st, k, Inp(k));
  }

  /**
   A release that is overtaken, between its two lock regions, by a removal and a new attach takes the
   reference of the new session: in the end one lease is live and the reference count is zero.
   */
  lemma LateReleaseRace(k: SessionKey) returns (s0: State, run: seq<Event>)
    ensures Reachable(s0, run) && AllFinished(After(s0, run))
    ensures var st := After(s0, run).store;
            k in st.sessions && st.sessions[k].refCount == 0 && LeasesOn(st.leases, k) == 1
  {
    s0, run := Overtaken(k);
    run := ThenStep(s0, run, Event(1, Inp(k)));
  }

  lemma FirstAttach(k: SessionKey, i: Input)
    requires i.spawned.Some?
    ensures var st := WholeCall(EmptyStore(300), NewAcquire(k), i);
            && st.leases == map[LeaseName(1) := LeaseRecord(k, None)] && st.sessions.Keys == {k}
            && st.leaseSeq == 2 && GateFree(st, k)
  {
    var st := WholeCall(EmptyStore(300), NewAcquire(k), i);
    assert st == SpawnFor(EnterGate(EmptyStore(300), k), k, None, i.spawned, i.now);
  }

  lemma TakeLast(st: Store, id: string, k: SessionKey)
    requires st.leases == map[id := LeaseRecord(k, None)]
    ensures st.leases - {id} == map[]
  {
  }

  lemma SecondAttach(st: Store, k: SessionKey, i: Input)
    requires i.spawned.Some? && st.leases == map[] && k !in st.sessions && k !in st.spawnGates
    ensures var st' := WholeCall(st, NewAcquire(k), i);
            && LeasesOn(st'.leases, k) == 1 && k in st'.sessions && st'.sessions[k].refCount == 1
  {
    var st' := WholeCall(st, NewAcquire(k), i);
    assert st' == SpawnFor(EnterGate(st, k), k, None, i.spawned, i.now);
    LeasesAfterInsert(map[], LeaseName(st.leaseSeq), LeaseRecord(k, None), k);
    assert LeaseIdsOn(map[], k) == {};
  }

  /** The first lock region of a removal, then a whole attach. */
  lemma AttachAfterDrop(s0: State, t: Tid, u: Tid, k: SessionKey) returns (run: seq<Event>)
    requires Init(s0) && t < |s0.tasks| && u < |s0.tasks|
    requires Removes(s0.tasks[t], k) && Attaches(s0.tasks[u], k)
    ensures Reachable(s0, run)
    ensures var s := After(s0, run);
            && |s.tasks| == |s0.tasks| && s.tasks[t] == Remove(k, DroppingLeases) && IsGranted(s.tasks[u], 1)
            && s.sessionsLock == FREE && s.leasesLock == FREE
            && (forall v :: 0 <= v < |s.tasks| && v != t && v != u ==> s.tasks[v] == s0.tasks[v])
            && RefCountOf(s.store, k) == 1 && LeaseIdsOn(s.store.leases, k) == {LeaseName(1)}
  {
    run := ThenStep(s0, [], Event(t, Inp(k)));
    assert After(s0, run).store == s0.store;
    run := ThenCall(s0, run, u, Inp(k));
    AttachToNothing(s0.store, s0.tasks[u], Inp(k));
  }

  /**
   A lease can be dropped by a removal that was half done before its attach began: the attach returns, nobody has
   released the lease or called for a removal since, and the next step of the removal takes the lease away.  The
   session stays.
   */
  lemma GrantedLeaseIsDropped(s0: State, t: Tid, u: Tid, k: SessionKey) returns (run: seq<Event>, e: Event)
    requires Init(s0) && t < |s0.tasks| && u < |s0.tasks|
    requires Removes(s0.tasks[t], k) && Attaches(s0.tasks[u], k)
    ensures Reachable(s0, run) && Allowed(After(s0, run), e)
    ensures var s := After(s0, run);
            && |s.tasks| == |s0.tasks| && IsGranted(s.tasks[u], 1) && LeaseName(1) in LeaseIdsOn(s.store.leases, k)
            && s.tasks[t] == Remove(k, DroppingLeases)
            && (forall v :: 0 <= v < |s.tasks| && v != t && v != u ==> AtStart(s.tasks[v]))
            && LeaseName(1) !in Next(s, e).store.leases && k in Next(s, e).store.sessions
  {
    run := AttachAfterDrop(s0, t, u, k);
    e := Event(t, Inp(k));
    assert LeaseName(1) in LeaseIdsOn(After(s0, run).store.leases, k);
  }

  /**
   A removal that is overtaken, between its first two lock regions, by a whole attach: the lease is dropped but
   not the session.  In the end it has one reference and no lease.
   */
  lemma OvertakenRemoval(s0: State, t: Tid, u: Tid, k: SessionKey) returns (run: seq<Event>)
    requires Init(s0) && t < |s0.tasks| && u < |s0.tasks|
    requires Removes(s0.tasks[t], k) && Attaches(s0.tasks[u], k)
    ensures Reachable(s0, run)
    ensures var s := After(s0, run);
            && |s.tasks| == |s0.tasks| && Finished(s.tasks[t]) && Finished(s.tasks[u])
            && (forall v :: 0 <= v < |s.tasks| && v != t && v != u ==> s.tasks[v] == s0.tasks[v])
            && RefCountOf(s.store, k) == 1 && LeaseIdsOn(s.store.leases, k) == {}
  {
    run := AttachAfterDrop(s0, t, u, k);
    run := ThenStep(s0, run, Event(t, Inp(k)));
    assert After(s0, run).tasks[t] == Remove(k, DroppingGates);
    run := ThenStep(s0, run, Event(t, Inp(k)));
  }

  lemma AttachToNothing(st: Store, x: Task, i: Input)
    requires x.Acquire? && x.key !in st.sessions && x.key !in st.spawnGates && i.spawned.Some?
    ensures var st' := WholeCall(st, x, i);
            && st'.sessions == st.sessions[x.key := Joined(NewRecord(i.spawned.value, i.now), i.now)]
            && st'.leases == st.leases[LeaseName(st.leaseSeq) := LeaseRecord(x.key, x.kind)]
  {
    assert WholeCall(st, x, i) == SpawnFor(EnterGate(st, x.key), x.key, x.kind, i.spawned, i.now);
  }

  /** In that run nothing accounts for the reference, so `RegistryTheorems.SurplusIsForGood` applies. */
  lemma OvertakenRemovalHasSurplus(s0: State, t: Tid, u: Tid, k: SessionKey) returns (run: seq<Event>)
    requires Init(s0) && t < |s0.tasks| && u < |s0.tasks|
    requires Removes(s0.tasks[t], k) && Attaches(s0.tasks[u], k)
    ensures Reachable(s0, run) && Surplus(After(s0, run).store, After(s0, run).tasks, k) == 1
  {
    run := OvertakenRemoval(s0, t, u, k);
    var s := After(s0, run);
    forall v | 0 <= v < |s.tasks| ensures !In(s.tasks[v], Joining(k)) && !In(s.tasks[v], LeavingFrom(k)) {
      assert v == t || v == u || AtStart(s.tasks[v]);
    }
    CountNone(s.tasks, Joining(k));
    CountNone(s.tasks, LeavingFrom(k));
  }

  /**
   Every run keeps the reference count of a key equal to what accounts for it exactly when no removal of the key
   is called, or no attach.
   */
  lemma RefCountsExactExactlyWhen(s0: State, k: SessionKey)
    requires Init(s0) && FewCalls(s0)
    ensures (forall run :: IsRun(s0, run) ==> RefCountOk(After(s0, run).store, After(s0, run).tasks, k)) <==>
            NeverRemoved(s0.tasks, k) || NeverAttached(s0.tasks, k)
  {
    if NeverRemoved(s0.tasks, k) {
      forall run | IsRun(s0, run) ensures RefCountOk(After(s0, run).store, After(s0, run).tasks, k) {
        NeverBegins(s0, run, k);
        RefCountsAreExact(s0, run, k);
      }
    } else if NeverAttached(s0.tasks, k) {
      forall run | IsRun(s0, run) ensures RefCountOk(After(s0, run).store, After(s0, run).tasks, k) {
        StaysAbsent(s0, run, k);
      }
    } else {
      var t :| 0 <= t < |s0.tasks| && Removes(s0.tasks[t], k);
      var u :| 0 <= u < |s0.tasks| && Attaches(s0.tasks[u], k);
      var run := OvertakenRemovalHasSurplus(s0, t, u, k);
      assert !RefCountOk(After(s0, run).store, After(s0, run).tasks, k);
    }
  }

  // ----- Spawns in flight

  /** One attach up to its running closure, when nobody else spawns under the gate of its key. */
  lemma ThenSpawning(s0: State, run: seq<Event>, t: Tid, k: SessionKey) returns (longer: seq<Event>)
    requires IsRun(s0, run) && t < |After(s0, run).tasks|
    requires var s := After(s0, run);
             && AtStart(s.tasks[t]) && Attaches(s.tasks[t], k) && GateFree(s.store, k) && k !in s.store.sessions
             && s.sessionsLock == FREE && s.leasesLock == FREE
    ensures IsRun(s0, longer)
    ensures var s, s' := After(s0, run), After(s0, longer);
            var entered := EnterGate(s.store, k);
            && s'.store == Started(entered, entered.spawnGates[k])
            && s'.tasks == s.tasks[t := At(entered, s.tasks[t], Spawning, 1)]
            && s'.sessionsLock == FREE && s'.leasesLock == FREE
  {
    var s := After(s0, run);
    SpawnStart(s.store, s.tasks[t], Inp(k));
    longer := ThenMoves(s0, run, t, Inp(k), 4);
  }

  /** A removal during a spawn lets a second spawn for the same key start, under a second gate. */
  lemma TwoSpawnersRace(s0: State, t: Tid, u: Tid, r: Tid, k: SessionKey) returns (run: seq<Event>)
    requires Init(s0) && t < |s0.tasks| && u < |s0.tasks| && r < |s0.tasks| && t != u
    requires Attaches(s0.tasks[t], k) && Attaches(s0.tasks[u], k) && Removes(s0.tasks[r], k)
    ensures Reachable(s0, run) && |After(s0, run).tasks| == |s0.tasks|
    ensures Spawns(After(s0, run).tasks[t], k) && Spawns(After(s0, run).tasks[u], k)
    ensures !SingleFlight(After(s0, run), k)
  {
    assert IsRun(s0, []);
    run := ThenSpawning(s0, [], t, k);
    run := ThenCall(s0, run, r, Inp(k));
    assert k !in After(s0, run).store.sessions && k !in After(s0, run).store.spawnGates;
    run := ThenSpawning(s0, run, u, k);
  }

  /** An attach up to the reset of its gate after its spawn failed, then a second one that takes the gate. */
  lemma GateTakenOver(s0: State, t: Tid, u: Tid, k: SessionKey) returns (run: seq<Event>)
    requires Init(s0) && t < |s0.tasks| && u < |s0.tasks| && t != u
    requires Attaches(s0.tasks[t], k) && Attaches(s0.tasks[u], k)
    ensures Reachable(s0, run)
    ensures var s := After(s0, run);
            && |s.tasks| == |s0.tasks| && s.sessionsLock == FREE && s.leasesLock == FREE && k !in s.store.sessions
            && Attaches(s.tasks[t], k) && s.tasks[t].apc.DroppingGate? && Spawns(s.tasks[u], k)
            && (forall v :: 0 <= v < |s.tasks| && v != t && v != u ==> s.tasks[v] == s0.tasks[v])
  {
    var fails := Input(0, None, true);
    assert IsRun(s0, []);
    SpawnPart(s0.store, s0.tasks[t], fails);
    run := ThenMoves(s0, [], t, fails, 6);
    run := ThenSpawning(s0, run, u, k);
  }

  /**
   Without any removal: a spawn that fails resets its gate, a second attach takes the gate, the first takes it off
   the map, and a third attach spawns under a new one.
   */
  lemma FailedSpawnRace(s0: State, t: Tid, u: Tid, v: Tid, k: SessionKey) returns (run: seq<Event>)
    requires Init(s0) && t < |s0.tasks| && u < |s0.tasks| && v < |s0.tasks| && t != u && u != v && t != v
    requires Attaches(s0.tasks[t], k) && Attaches(s0.tasks[u], k) && Attaches(s0.tasks[v], k)
    ensures Reachable(s0, run) && |After(s0, run).tasks| == |s0.tasks|
    ensures Spawns(After(s0, run).tasks[u], k) && Spawns(After(s0, run).tasks[v], k)
    ensures !SingleFlight(After(s0, run), k)
  {
    run := GateTakenOver(s0, t, u, k);
    run := ThenStep(s0, run, Event(t, Inp(k)));
    assert k !in After(s0, run).store.spawnGates;
    run := ThenSpawning(s0, run, v, k);
  }

  ghost predicate TwoAttach(tasks: seq<Task>, k: SessionKey) {
    exists t, u :: 0 <= t < u < |tasks| && Attaches(tasks[t], k) && Attaches(tasks[u], k)
  }

  ghost predicate ThreeAttach(tasks: seq<Task>, k: SessionKey) {
    exists t, u, v :: 0 <= t < u < v < |tasks| &&
      Attaches(tasks[t], k) && Attaches(tasks[u], k) && Attaches(tasks[v], k)
  }

  lemma NoThird(tasks: seq<Task>, t: Tid, u: Tid, v: Tid, k: SessionKey)
    requires !ThreeAttach(tasks, k) && t < u < |tasks| && v < |tasks|
    requires Attaches(tasks[t], k) && Attaches(tasks[u], k)
    ensures Attaches(tasks[v], k) ==> v == t || v == u
  {
  }

  lemma TwoAttachesShareAGate(s0: State, run: seq<Event>, k: SessionKey)
    requires Reachable(s0, run) && NeverRemoved(s0.tasks, k) && !ThreeAttach(s0.tasks, k)
    ensures SingleFlight(After(s0, run), k)
  {
    var s := After(s0, run);
    RolesStay(s0, run, k);
    if !SingleFlight(s, k) {
      var t: Tid, u: Tid :| t < u < |s.tasks| && Spawns(s.tasks[t], k) && Spawns(s.tasks[u], k);
      forall v | 0 <= v < |s.tasks| ensures !TookGateOff(s.tasks[v], k) {
        NoThird(s0.tasks, t, u, v, k);
      }
      OneSpawnPerKey(s0, run, k);
    }
  }

  lemma FlightBreaksByFailure(s0: State, k: SessionKey) returns (run: seq<Event>)
    requires Init(s0) && ThreeAttach(s0.tasks, k)
    ensures Reachable(s0, run) && !SingleFlight(After(s0, run), k)
  {
    var t: Tid, u: Tid, v: Tid := ThreeOf(s0.tasks, k);
    run := FailedSpawnRace(s0, t, u, v, k);
  }

  lemma ThreeOf(tasks: seq<Task>, k: SessionKey) returns (t: Tid, u: Tid, v: Tid)
    requires ThreeAttach(tasks, k)
    ensures t < u < v < |tasks| && Attaches(tasks[t], k) && Attaches(tasks[u], k) && Attaches(tasks[v], k)
  {
    t, u, v :| 0 <= t < u < v < |tasks| && Attaches(tasks[t], k) && Attaches(tasks[u], k) && Attaches(tasks[v], k);
  }

  lemma FlightBreaksByRemoval(s0: State, k: SessionKey) returns (run: seq<Event>)
    requires Init(s0) && TwoAttach(s0.tasks, k) && !NeverRemoved(s0.tasks, k)
    ensures Reachable(s0, run) && !SingleFlight(After(s0, run), k)
  {
    var t, u :| 0 <= t < u < |s0.tasks| && Attaches(s0.tasks[t], k) && Attaches(s0.tasks[u], k);
    var r :| 0 <= r < |s0.tasks| && Removes(s0.tasks[r], k);
    run := TwoSpawnersRace(s0, t, u, r, k);
  }

  lemma FlightHolds(s0: State, run: seq<Event>, k: SessionKey)
    requires Reachable(s0, run)
    requires !TwoAttach(s0.tasks, k) || (!ThreeAttach(s0.tasks, k) && NeverRemoved(s0.tasks, k))
    ensures SingleFlight(After(s0, run), k)
  {
    if TwoAttach(s0.tasks, k) {
      TwoAttachesShareAGate(s0, run, k);
    } else {
      RolesStay(s0, run, k);
    }
  }

  /**
   Every run has at most one spawn of a key in flight exactly when the key is attached at most once, or at most
   twice and never removed.
   */
  lemma SingleFlightExactlyWhen(s0: State, k: SessionKey)
    requires Init(s0)
    ensures (forall run :: IsRun(s0, run) ==> SingleFlight(After(s0, run), k)) <==>
            !TwoAttach(s0.tasks, k) || (!ThreeAttach(s0.tasks, k) && NeverRemoved(s0.tasks, k))
  {
    if !TwoAttach(s0.tasks, k) || (!ThreeAttach(s0.tasks, k) && NeverRemoved(s0.tasks, k)) {
      forall run | IsRun(s0, run) ensures SingleFlight(After(s0, run), k) {
        FlightHolds(s0, run, k);
      }
    } else if ThreeAttach(s0.tasks, k) {
      var run := FlightBreaksByFailure(s0, k);
    } else {
      var run := FlightBreaksByRemoval(s0, k);
    }
  }
}
