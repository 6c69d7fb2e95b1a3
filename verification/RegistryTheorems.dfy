/** What holds in every reachable state of the concurrent registry. */
module RegistryTheorems {
  import opened RegistryTypes
  import opened RegistrySteps
  import opened RegistryLocks
  import opened RegistryProgress
  import opened RegistryAccounting
  import Decimal

  ghost predicate Reachable(s0: State, run: seq<Event>) {
    Init(s0) && IsRun(s0, run)
  }

  /** Lease numbers are `u64`s: with more calls than this, ids repeat (`RegistryTypes.LeaseNamesClash`). */
  predicate FewCalls(s: State) {
    Count(s.tasks, Acquires) <= Decimal.TWO_TO_THE_64
  }

  ghost predicate Sound(s: State) {
    && LocksOk(s) && GatesOk(s.store, s.tasks) && CountersOk(s.store, s.tasks) && NumbersOk(s.store, s.tasks)
    && (FewCalls(s) ==> IdsOk(s.store, s.tasks) && ReleasesOk(s.store, s.tasks))
  }

  lemma StartIsSound(s: State)
    requires Init(s)
    ensures Sound(s)
  {
    StartOk(s);
    CountNone(s.tasks, Attached);
    CountNone(s.tasks, CountedAs(Spawned));
    CountNone(s.tasks, CountedAs(Reused));
    CountNone(s.tasks, Numbered);
    CountNone(s.tasks, InsertPending);
  }

  lemma SoundStep(s: State, e: Event)
    requires Sound(s) && Allowed(s, e)
    ensures Sound(Next(s, e)) && FewCalls(Next(s, e)) == FewCalls(s)
  {
    LocksStep(s, e);
    GatesStep(s, e);
    CountersStep(s, e);
    NumbersStep(s, e);
    assert IsRun(s, [e]) by {
      assert [e][1..] == [];
    }
    RunKeepsAcquires(s, [e]);
    assert After(s, [e]) == Next(s, e) by {
      assert [e][1..] == [];
    }
    if FewCalls(s) {
      IdsStep(s, e);
      ReleasesStep(s, e);
    }
  }

  lemma {:induction false} RunIsSound(s: State, run: seq<Event>)
    requires Sound(s) && IsRun(s, run)
    ensures Sound(After(s, run)) && FewCalls(After(s, run)) == FewCalls(s)
    decreases |run|
  {
    if run != [] {
      SoundStep(s, run[0]);
      RunIsSound(Next(s, run[0]), run[1..]);
    }
  }

  lemma ReachableIsSound(s0: State, run: seq<Event>)
    requires Reachable(s0, run)
    ensures Sound(After(s0, run)) && FewCalls(After(s0, run)) == FewCalls(s0)
  {
    StartIsSound(s0);
    RunIsSound(s0, run);
  }

  // ----- Gates

  /**
   A gate is started exactly while one task spawns under it, and whoever still waits on a gate has a
   spawner there.  Gates that have left the gate map are no exception.
   */
  lemma GateExclusion(s0: State, run: seq<Event>, g: GateId)
    requires Reachable(s0, run)
    ensures var s := After(s0, run);
            && (GateAt(s.store, g).started <==> exists t :: 0 <= t < |s.tasks| && In(s.tasks[t], SpawningUnder(g)))
            && (forall t, u :: 0 <= t < u < |s.tasks| && In(s.tasks[t], SpawningUnder(g)) ==>
                                 !In(s.tasks[u], SpawningUnder(g)))
            && (forall t :: 0 <= t < |s.tasks| && !Woken(s.store, s.tasks[t]) && s.tasks[t].gate == g ==>
                              GateAt(s.store, g).started)
  {
    ReachableIsSound(s0, run);
    var s := After(s0, run);
    assert GateOk(s.store, s.tasks, g);
    if GateAt(s.store, g).started {
      var t := CountWitness(s.tasks, SpawningUnder(g));
    } else if t :| 0 <= t < |s.tasks| && In(s.tasks[t], SpawningUnder(g)) {
      CountMember(s.tasks, t, SpawningUnder(g));
    }
    forall t, u | 0 <= t < u < |s.tasks| && In(s.tasks[t], SpawningUnder(g)) ensures !In(s.tasks[u], SpawningUnder(g)) {
      if In(s.tasks[u], SpawningUnder(g)) {
        CountPair(s.tasks, t, u, SpawningUnder(g));
      }
    }
    forall t | 0 <= t < |s.tasks| && !Woken(s.store, s.tasks[t]) && s.tasks[t].gate == g
      ensures GateAt(s.store, g).started
    {
      assert TaskGateOk(s.store, s.tasks[t]);
    }
  }

  // ----- Counters

  lemma CounterConservation(s0: State, run: seq<Event>)
    requires Reachable(s0, run)
    ensures var s := After(s0, run);
            && s.store.counters.attach ==
               s.store.counters.spawned + s.store.counters.reused +
               Count(s.tasks, Failures) + Count(s.tasks, InFlight)
            && (s.sessionsLock.writer.None? ==>
                  s.store.leaseSeq - 1 == s.store.counters.spawned + s.store.counters.reused)
            && (s.sessionsLock.writer.None? && FewCalls(s0) ==>
                  s.store.leaseSeq - 1 == |s.store.leases| + |s.store.released| + |s.store.dropped|)
  {
    ReachableIsSound(s0, run);
    var s := After(s0, run);
    AttachedSplit(s.tasks);
    if s.sessionsLock.writer.None? {
      assert forall t :: 0 <= t < |s.tasks| ==> !WritesSessions(s.tasks[t]);
      CountNone(s.tasks, NumberPending);
      CountNone(s.tasks, InsertPending);
    }
  }

  // ----- Lease ids

  lemma LeaseIdsAreFresh(s0: State, run: seq<Event>, t: Tid)
    requires Reachable(s0, run) && FewCalls(s0)
    requires t < |After(s0, run).tasks| && Inserts(After(s0, run).tasks[t])
    ensures LeaseName(After(s0, run).tasks[t].apc.n) !in EverIssued(After(s0, run).store)
  {
    ReachableIsSound(s0, run);
    InsertedIdIsNew(After(s0, run).store, After(s0, run).tasks, t);
  }

  lemma DeadStep(s: State, e: Event)
    requires Sound(s) && FewCalls(s) && Allowed(s, e)
    ensures s.store.released + s.store.dropped <= Next(s, e).store.released + Next(s, e).store.dropped
  {
    LeaseMove(s.store, s.tasks[e.t], e.i);
  }

  lemma {:induction false} DeadStaysDead(s: State, run: seq<Event>, id: string)
    requires Sound(s) && FewCalls(s) && IsRun(s, run)
    requires id in s.store.released + s.store.dropped
    ensures id in After(s, run).store.released + After(s, run).store.dropped
    decreases |run|
  {
    if run != [] {
      SoundStep(s, run[0]);
      DeadStep(s, run[0]);
      DeadStaysDead(Next(s, run[0]), run[1..], id);
    }
  }

  /**
   Once a lease id was released or dropped, it is never in the map again: every later look-up by a
   release, call or notify ends with "not found".
   */
  lemma LeaseIdsDieForGood(s0: State, run: seq<Event>, more: seq<Event>, id: string, t: Tid, i: Input)
    requires Reachable(s0, run) && FewCalls(s0) && IsRun(After(s0, run), more)
    requires id in After(s0, run).store.released + After(s0, run).store.dropped
    ensures var s := After(After(s0, run), more);
            && id !in s.store.leases
            && (Allowed(s, Event(t, i)) && s.tasks[t] == Release(id, TakingLease) ==>
                  Next(s, Event(t, i)).tasks[t] == Release(id, Unknown))
            && (Allowed(s, Event(t, i)) && s.tasks[t] == Forward(id, FindingLease) ==>
                  Next(s, Event(t, i)).tasks[t] == Forward(id, NotFound))
  {
    ReachableIsSound(s0, run);
    RunIsSound(After(s0, run), more);
    DeadStaysDead(After(s0, run), more, id);
  }

  /** No two releases of the same id both find it, so each id causes at most one decrement. */
  lemma OneReleasePerLease(s0: State, run: seq<Event>, t: Tid, u: Tid)
    requires Reachable(s0, run) && FewCalls(s0)
    requires t < |After(s0, run).tasks| && u < |After(s0, run).tasks|
    requires Took(After(s0, run).tasks[t]) && Took(After(s0, run).tasks[u])
    requires After(s0, run).tasks[t].leaseId == After(s0, run).tasks[u].leaseId
    ensures t == u
  {
    ReachableIsSound(s0, run);
    assert t < u || u < t || t == u;
  }

  /** This step ends the lease `id` on `key`: a release takes it, or a removal of its key drops it. */
  predicate StepEnds(s: State, e: Event, id: string, key: SessionKey)
    requires e.t < |s.tasks|
  {
    || s.tasks[e.t] == Release(id, TakingLease)
    || s.tasks[e.t] == Remove(key, DroppingLeases)
  }

  predicate RunEnds(s: State, run: seq<Event>, id: string, key: SessionKey)
    requires IsRun(s, run)
    decreases |run|
  {
    run != [] && (StepEnds(s, run[0], id, key) || RunEnds(Next(s, run[0]), run[1..], id, key))
  }

  lemma LeaseFlowLife(st: Store, x: Task, st': Store, id: string)
    requires LeaseFlow(st, x, st') && (Inserts(x) ==> LeaseName(x.apc.n) != id)
    ensures id in st'.leases <==>
            id in st.leases && !(Takes(st, x) && x.leaseId == id) && !(DropsLeases(x) && x.target == st.leases[id].key)
    ensures id in st'.leases ==> st'.leases[id] == st.leases[id]
  {
  }

  lemma EverIssuedStep(s: State, e: Event)
    requires Sound(s) && FewCalls(s) && Allowed(s, e)
    ensures EverIssued(s.store) <= EverIssued(Next(s, e).store)
    ensures Inserts(s.tasks[e.t]) ==> LeaseName(s.tasks[e.t].apc.n) !in EverIssued(s.store)
  {
    if Inserts(s.tasks[e.t]) {
      InsertedIdIsNew(s.store, s.tasks, e.t);
    }
    LeaseMove(s.store, s.tasks[e.t], e.i);
    HistoryFlow(s.store, s.tasks[e.t], Next(s, e).store);
  }

  lemma LeaseLifeMove(s: State, e: Event, id: string)
    requires Allowed(s, e) && (Inserts(s.tasks[e.t]) ==> LeaseName(s.tasks[e.t].apc.n) != id)
    ensures id in Next(s, e).store.leases <==> id in s.store.leases && !StepEnds(s, e, id, s.store.leases[id].key)
    ensures id in Next(s, e).store.leases ==> Next(s, e).store.leases[id] == s.store.leases[id]
  {
    LeaseMove(s.store, s.tasks[e.t], e.i);
    LeaseFlowLife(s.store, s.tasks[e.t], MoveOf(s.store, s.tasks[e.t], e.i).store, id);
  }

  lemma LeaseLifeStep(s: State, e: Event, id: string)
    requires Sound(s) && FewCalls(s) && Allowed(s, e) && id in EverIssued(s.store)
    ensures id in EverIssued(Next(s, e).store)
    ensures id in Next(s, e).store.leases <==> id in s.store.leases && !StepEnds(s, e, id, s.store.leases[id].key)
    ensures id in Next(s, e).store.leases ==> Next(s, e).store.leases[id] == s.store.leases[id]
  {
    EverIssuedStep(s, e);
    LeaseLifeMove(s, e, id);
  }

  lemma {:induction false} GoneForGood(s: State, run: seq<Event>, id: string)
    requires Sound(s) && FewCalls(s) && IsRun(s, run) && id in EverIssued(s.store) && id !in s.store.leases
    ensures id !in After(s, run).store.leases
    decreases |run|
  {
    if run != [] {
      SoundStep(s, run[0]);
      LeaseLifeStep(s, run[0], id);
      GoneForGood(Next(s, run[0]), run[1..], id);
    }
  }

  /**
   The life of a lease, lock region by lock region: it is live after a run exactly when no step of the run took it
   for a release or dropped the leases of its key for a removal, whenever that removal began.
   */
  lemma {:induction false} LeaseLivesUntilStepEndsIt(s: State, run: seq<Event>, id: string)
    requires Sound(s) && FewCalls(s) && IsRun(s, run) && id in s.store.leases
    ensures id in After(s, run).store.leases <==> !RunEnds(s, run, id, s.store.leases[id].key)
    ensures id in After(s, run).store.leases ==> After(s, run).store.leases[id] == s.store.leases[id]
    decreases |run|
  {
    if run != [] {
      var s' := Next(s, run[0]);
      SoundStep(s, run[0]);
      LeaseLifeStep(s, run[0], id);
      if id in s'.store.leases {
        LeaseLivesUntilStepEndsIt(s', run[1..], id);
      } else {
        GoneForGood(s', run[1..], id);
      }
    }
  }

  // ----- Reference counts

  /** No step of the run belongs to a removal of `k`. */
  predicate NoRemovalSteps(tasks: seq<Task>, run: seq<Event>, k: SessionKey) {
    forall j :: 0 <= j < |run| && run[j].t < |tasks| ==> !Removes(tasks[run[j].t], k)
  }

  /** A removal that has not begun at the end of a run never had. */
  lemma {:induction false} NotBegunBefore(s: State, run: seq<Event>, k: SessionKey)
    requires IsRun(s, run) && NoRemovalBegun(After(s, run).tasks, k)
    ensures NoRemovalBegun(s.tasks, k) && NoRemovalSteps(s.tasks, run, k)
    decreases |run|
  {
    if run != [] {
      var e, s' := run[0], Next(s, run[0]);
      NotBegunBefore(s', run[1..], k);
      RemovalStep(s.store, s.tasks[e.t], e.i, k);
      assert s'.tasks[e.t] == MoveOf(s.store, s.tasks[e.t], e.i).task;
      assert forall t :: 0 <= t < |s.tasks| && t != e.t ==> s'.tasks[t] == s.tasks[t];
      forall j | 0 <= j < |run| && run[j].t < |s.tasks| ensures !Removes(s.tasks[run[j].t], k) {
        assert j > 0 ==> run[j] == run[1..][j - 1] && !Removes(s'.tasks[run[j].t], k);
      }
    }
  }

  lemma {:induction false} RunKeepsSurplus(s: State, run: seq<Event>, k: SessionKey)
    requires Sound(s) && FewCalls(s) && IsRun(s, run)
    requires Surplus(s.store, s.tasks, k) >= 0 && NoRemovalSteps(s.tasks, run, k)
    ensures Surplus(After(s, run).store, After(s, run).tasks, k) == Surplus(s.store, s.tasks, k)
    decreases |run|
  {
    if run != [] {
      var e, s' := run[0], Next(s, run[0]);
      RemovalStep(s.store, s.tasks[e.t], e.i, k);
      assert forall j :: 0 <= j < |run[1..]| ==> run[1..][j] == run[j + 1];
      SoundStep(s, e);
      RefCountStep(s, e, k);
      RunKeepsSurplus(s', run[1..], k);
    }
  }

  lemma StartIsExact(s: State, k: SessionKey)
    requires Init(s)
    ensures RefCountOk(s.store, s.tasks, k)
  {
    CountNone(s.tasks, Joining(k));
    CountNone(s.tasks, LeavingFrom(k));
    assert LeaseIdsOn(s.store.leases, k) == {};
  }

  /**
   Until a removal of a key begins, its reference count is the number of its live leases, plus attaches
   whose lease is about to be inserted, plus releases between their two lock regions.  The guard
   `ref_count > 0` of a release on that key therefore never fails.
   */
  lemma RefCountsAreExact(s0: State, run: seq<Event>, k: SessionKey)
    requires Reachable(s0, run) && FewCalls(s0) && NoRemovalBegun(After(s0, run).tasks, k)
    ensures var s := After(s0, run);
            && RefCountOk(s.store, s.tasks, k)
            && (forall t :: 0 <= t < |s.tasks| && In(s.tasks[t], LeavingFrom(k)) ==>
                              k in s.store.sessions && s.store.sessions[k].refCount > 0)
  {
    StartIsSound(s0);
    StartIsExact(s0, k);
    NotBegunBefore(s0, run, k);
    RunKeepsSurplus(s0, run, k);
    var s := After(s0, run);
    forall t | 0 <= t < |s.tasks| && In(s.tasks[t], LeavingFrom(k))
      ensures k in s.store.sessions && s.store.sessions[k].refCount > 0
    {
      CountMember(s.tasks, t, LeavingFrom(k));
    }
  }

  /** A session with more references than users keeps them until a removal: it never looks idle again. */
  lemma SurplusIsForGood(s0: State, run: seq<Event>, more: seq<Event>, k: SessionKey, now: nat)
    requires Reachable(s0, run) && FewCalls(s0) && IsRun(After(s0, run), more)
    requires Surplus(After(s0, run).store, After(s0, run).tasks, k) > 0
    requires NoRemovalSteps(After(s0, run).tasks, more, k)
    ensures var st := After(After(s0, run), more).store;
            k in st.sessions && !IsIdle(st.sessions[k], now, st.idleTtl)
  {
    ReachableIsSound(s0, run);
    RunKeepsSurplus(After(s0, run), more, k);
  }

  lemma {:induction false} NeverBegins(s: State, run: seq<Event>, k: SessionKey)
    requires IsRun(s, run) && NeverRemoved(s.tasks, k)
    ensures NeverRemoved(After(s, run).tasks, k)
    decreases |run|
  {
    if run != [] {
      RemovalStep(s.store, s.tasks[run[0].t], run[0].i, k);
      NeverBegins(Next(s, run[0]), run[1..], k);
    }
  }

  // ----- Keys that nobody attaches

  predicate Attaches(x: Task, k: SessionKey) {
    x.Acquire? && x.key == k
  }

  /** Nobody calls `acquire_or_spawn` for `k` in this run. */
  predicate NeverAttached(tasks: seq<Task>, k: SessionKey) {
    forall t :: 0 <= t < |tasks| ==> !Attaches(tasks[t], k)
  }

  /** The registry has nothing to do with `k`. */
  ghost predicate Absent(st: Store, tasks: seq<Task>, k: SessionKey) {
    && NeverAttached(tasks, k)
    && k !in st.sessions && LeaseIdsOn(st.leases, k) == {}
    && (forall t :: 0 <= t < |tasks| ==> !In(tasks[t], LeavingFrom(k)))
  }

  lemma AbsentMove(st: Store, x: Task, i: Input, k: SessionKey)
    requires !Finished(x) && k !in st.sessions && LeaseIdsOn(st.leases, k) == {}
    requires !Attaches(x, k) && !In(x, LeavingFrom(k))
    ensures var m := MoveOf(st, x, i);
            && k !in m.store.sessions && LeaseIdsOn(m.store.leases, k) == {}
            && !Attaches(m.task, k) && !In(m.task, LeavingFrom(k))
  {
    LeaseMove(st, x, i);
    if Takes(st, x) {
      assert x.leaseId !in LeaseIdsOn(st.leases, k);
    }
    forall id | id in MoveOf(st, x, i).store.leases ensures MoveOf(st, x, i).store.leases[id].key != k {
      assert id !in LeaseIdsOn(st.leases, k);
    }
  }

  lemma {:induction false} StaysAbsent(s: State, run: seq<Event>, k: SessionKey)
    requires Absent(s.store, s.tasks, k) && IsRun(s, run)
    ensures RefCountOk(After(s, run).store, After(s, run).tasks, k)
    ensures k !in After(s, run).store.sessions
    decreases |run|
  {
    if run == [] {
      CountNone(s.tasks, Joining(k));
      CountNone(s.tasks, LeavingFrom(k));
    } else {
      AbsentMove(s.store, s.tasks[run[0].t], run[0].i, k);
      StaysAbsent(Next(s, run[0]), run[1..], k);
    }
  }

  // ----- Marking idle sessions

  /** No lease on `k` is among `ids`. */
  ghost predicate LeasesBeyond(st: Store, k: SessionKey, ids: set<string>) {
    forall id :: id in LeaseIdsOn(st.leases, k) ==> id !in ids
  }

  lemma LeasesBeyondStep(s: State, e: Event, k: SessionKey, ids: set<string>)
    requires Sound(s) && FewCalls(s) && Allowed(s, e)
    requires LeasesBeyond(s.store, k, ids) && ids <= EverIssued(s.store)
    ensures LeasesBeyond(Next(s, e).store, k, ids) && ids <= EverIssued(Next(s, e).store)
  {
    var x, st' := s.tasks[e.t], Next(s, e).store;
    if Inserts(x) {
      InsertedIdIsNew(s.store, s.tasks, e.t);
    }
    LeaseMove(s.store, x, e.i);
    HistoryFlow(s.store, x, st');
    forall id | id in LeaseIdsOn(st'.leases, k) ensures id !in ids {
      assert id in LeaseIdsOn(s.store.leases, k) || (Inserts(x) && id == LeaseName(x.apc.n));
    }
  }

  lemma {:induction false} LeasesBeyondRun(s: State, run: seq<Event>, k: SessionKey, ids: set<string>)
    requires Sound(s) && FewCalls(s) && IsRun(s, run)
    requires LeasesBeyond(s.store, k, ids) && ids <= EverIssued(s.store)
    ensures LeasesBeyond(After(s, run).store, k, ids)
    decreases |run|
  {
    if run != [] {
      SoundStep(s, run[0]);
      LeasesBeyondStep(s, run[0], k, ids);
      LeasesBeyondRun(Next(s, run[0]), run[1..], k, ids);
    }
  }

  /**
   Idle eviction lock region by lock region: a session that looks idle before any removal of its key has begun
   has no lease, and whatever lease a later removal drops was inserted after that moment.
   */
  lemma IdleSessionsHaveNoOldLeases(s0: State, run: seq<Event>, more: seq<Event>, k: SessionKey, now: nat)
    requires Reachable(s0, run) && FewCalls(s0) && NoRemovalBegun(After(s0, run).tasks, k)
    requires IsRun(After(s0, run), more)
    requires var st := After(s0, run).store; k in st.sessions && IsIdle(st.sessions[k], now, st.idleTtl)
    ensures var st := After(s0, run).store;
            && LeaseIdsOn(st.leases, k) == {}
            && (forall id :: id in LeaseIdsOn(After(After(s0, run), more).store.leases, k) ==> id !in EverIssued(st))
  {
    var s := After(s0, run);
    ReachableIsSound(s0, run);
    RefCountsAreExact(s0, run, k);
    assert |LeaseIdsOn(s.store.leases, k)| == 0;
    LeasesBeyondRun(s, more, k, EverIssued(s.store));
  }

  // ----- The end of a run

  /**
   A run that cannot go on has finished every task.  Then no lock is held, no gate is started, every
   attach was counted as spawned, reused or failed, and keys that were never removed have exactly as
   many references as leases.
   */
  lemma EndOfRun(s0: State, run: seq<Event>, k: SessionKey)
    requires Reachable(s0, run)
    requires forall t :: !Enabled(After(s0, run), t)
    ensures var s := After(s0, run);
            && AllFinished(s)
            && s.sessionsLock == FREE && s.leasesLock == FREE
            && (forall g: GateId :: !GateAt(s.store, g).started)
            && Count(s.tasks, Acquires) ==
               s.store.counters.spawned + s.store.counters.reused + Count(s.tasks, Failures)
            && (FewCalls(s0) && NeverRemoved(s0.tasks, k) ==>
                  RefCountOf(s.store, k) == LeasesOn(s.store.leases, k))
  {
    NoStuckState(s0, run);
    ReachableIsSound(s0, run);
    CounterConservation(s0, run);
    var s := After(s0, run);
    FinishedCounts(s, k);
    NoGateLeft(s);
    if FewCalls(s0) && NeverRemoved(s0.tasks, k) {
      NeverBegins(s0, run, k);
      RefCountsAreExact(s0, run, k);
    }
  }

  lemma NoGateLeft(s: State)
    requires GatesOk(s.store, s.tasks) && AllFinished(s)
    ensures forall g: GateId :: !GateAt(s.store, g).started
  {
    forall g: GateId ensures !GateAt(s.store, g).started {
      assert GateOk(s.store, s.tasks, g);
      CountNone(s.tasks, SpawningUnder(g));
    }
  }

  lemma FinishedCounts(s: State, k: SessionKey)
    requires LocksOk(s) && AllFinished(s)
    ensures Count(s.tasks, InFlight) == Count(s.tasks, Joining(k)) == Count(s.tasks, LeavingFrom(k)) == 0
    ensures Count(s.tasks, Attached) == Count(s.tasks, Acquires)
    ensures s.sessionsLock == FREE && s.leasesLock == FREE
  {
    CountNone(s.tasks, InFlight);
    CountNone(s.tasks, Joining(k));
    CountNone(s.tasks, LeavingFrom(k));
    CountSubset(s.tasks, Attached, Acquires);
    CountSubset(s.tasks, Acquires, Attached);
    assert s.sessionsLock.readers == {} && s.leasesLock.readers == {};
  }
}
