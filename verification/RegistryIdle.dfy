/** When a session that looks idle can still have a lease, so that idle eviction drops it. */
module RegistryIdle {
  import opened Wrappers
  import opened RegistryTypes
  import opened RegistrySteps
  import opened RegistryProgress
  import opened RegistryAccounting
  import opened RegistryCalls
  import opened RegistrySolo
  import opened RegistryTheorems
  import opened RegistryFlight
  import opened RegistryRaces
  import Decimal

  /** If the session of `k` looks idle, at whatever time, then no lease is on it. */
  ghost predicate IdleIsFree(st: Store, k: SessionKey) {
    forall now :: k in st.sessions && IsIdle(st.sessions[k], now, st.idleTtl) ==> LeaseIdsOn(st.leases, k) == {}
  }

  /** A release of a lease that the attaches of this run may be granted. */
  predicate ReleasesOneOf(x: Task, attaches: nat) {
    x.Release? && exists n :: 1 <= n <= attaches && x.leaseId == LeaseName(n)
  }

  predicate NoneReleased(tasks: seq<Task>, attaches: nat) {
    forall t :: 0 <= t < |tasks| ==> !ReleasesOneOf(tasks[t], attaches)
  }

  // ----- No release finds its lease

  /** Nobody has taken a lease or is about to, so every record has a reference. */
  ghost predicate NeverLeft(st: Store, tasks: seq<Task>, k: SessionKey) {
    && (forall t :: 0 <= t < |tasks| ==> !In(tasks[t], LeavingFrom(k)))
    && (k in st.sessions ==> st.sessions[k].refCount > 0)
  }

  lemma NeverLeftMove(st: Store, x: Task, i: Input, k: SessionKey)
    requires !Finished(x) && !In(x, LeavingFrom(k)) && !Takes(st, x)
    requires k in st.sessions ==> st.sessions[k].refCount > 0
    ensures var m := MoveOf(st, x, i);
            && !In(m.task, LeavingFrom(k))
            && (k in m.store.sessions ==> m.store.sessions[k].refCount > 0)
  {
    if x.Acquire? {
      assert MoveOf(st, x, i) == AcquireMove(st, x, i);
    }
  }

  lemma LiveIdsAreIssued(s: State, id: string) returns (n: nat)
    requires Sound(s) && FewCalls(s) && id in s.store.leases
    ensures 1 <= n <= Count(s.tasks, Acquires) && id == LeaseName(n)
  {
    assert id in EverIssued(s.store);
    var t :| 0 <= t < |s.tasks| && IssuedTo(s.tasks[t], id);
    assert HasNumber(s.tasks[t]);
    n := Number(s.tasks[t]);
    CountSubset(s.tasks, Numbered, Acquires);
  }

  lemma {:induction false} NeverLeftRun(s: State, run: seq<Event>, k: SessionKey)
    requires Sound(s) && FewCalls(s) && IsRun(s, run) && NeverLeft(s.store, s.tasks, k)
    requires NoneReleased(s.tasks, Count(s.tasks, Acquires))
    ensures NeverLeft(After(s, run).store, After(s, run).tasks, k)
    decreases |run|
  {
    if run != [] {
      var e, s' := run[0], Next(s, run[0]);
      if Takes(s.store, s.tasks[e.t]) {
        var n := LiveIdsAreIssued(s, s.tasks[e.t].leaseId);
        assert ReleasesOneOf(s.tasks[e.t], Count(s.tasks, Acquires));
        assert false;
      }
      NeverLeftMove(s.store, s.tasks[e.t], e.i, k);
      SoundStep(s, e);
      SameReleases(s, e, Count(s.tasks, Acquires));
      NeverLeftRun(s', run[1..], k);
    }
  }

  lemma SameReleases(s: State, e: Event, attaches: nat)
    requires Allowed(s, e) && NoneReleased(s.tasks, attaches)
    ensures NoneReleased(Next(s, e).tasks, attaches)
    ensures Count(Next(s, e).tasks, Acquires) == Count(s.tasks, Acquires)
  {
    var y := MoveOf(s.store, s.tasks[e.t], e.i).task;
    assert y.Release? ==> s.tasks[e.t].Release? && y.leaseId == s.tasks[e.t].leaseId;
    MoveKeepsKind(s.store, s.tasks[e.t], e.i);
    CountUpdate(s.tasks, e.t, y, Acquires);
  }

  // ----- A single attach

  predicate HasJoined(x: Task) {
    x.Acquire? && (HoldsSessions(x.apc) || x.apc.Acquired?)
  }

  ghost predicate OnlyAttach(tasks: seq<Task>, a: Tid, k: SessionKey) {
    && a < |tasks| && Attaches(tasks[a], k)
    && (forall t :: 0 <= t < |tasks| && Attaches(tasks[t], k) ==> t == a)
  }

  /** Before its one attach joins, nothing is known of the key; afterwards its references cover its users. */
  ghost predicate SoleOk(st: Store, tasks: seq<Task>, a: Tid, k: SessionKey)
    requires a < |tasks|
  {
    if !HasJoined(tasks[a]) then
      && k !in st.sessions && LeaseIdsOn(st.leases, k) == {}
      && (forall t :: 0 <= t < |tasks| ==> !In(tasks[t], LeavingFrom(k)))
    else
      k in st.sessions ==> Surplus(st, tasks, k) >= 0
  }

  lemma AttachingMove(st: Store, x: Task, i: Input, k: SessionKey)
    requires !Finished(x) && Attaches(x, k) && !HasJoined(x) && k !in st.sessions
    ensures var m := MoveOf(st, x, i);
            && m.store.leases == st.leases
            && (if HasJoined(m.task) then RefCountOf(m.store, k) == 1 && In(m.task, Joining(k))
                else k !in m.store.sessions)
  {
    assert MoveOf(st, x, i) == AcquireMove(st, x, i);
  }

  lemma NoJoinMove(st: Store, x: Task, i: Input, k: SessionKey)
    requires !Finished(x) && k !in st.sessions && (Attaches(x, k) ==> HasJoined(x))
    ensures k !in MoveOf(st, x, i).store.sessions
  {
    if x.Acquire? {
      assert MoveOf(st, x, i) == AcquireMove(st, x, i);
    }
  }

  lemma JoinedMove(st: Store, x: Task, i: Input)
    requires !Finished(x) && HasJoined(x)
    ensures HasJoined(MoveOf(st, x, i).task)
  {
  }

  /** A removal takes leases away, or the session, but no reference. */
  lemma RemovalSurplus(s: State, e: Event, k: SessionKey)
    requires Allowed(s, e) && Removes(s.tasks[e.t], k) && k in Next(s, e).store.sessions
    ensures k in s.store.sessions
    ensures Surplus(Next(s, e).store, Next(s, e).tasks, k) >= Surplus(s.store, s.tasks, k)
  {
    var x := s.tasks[e.t];
    var y := MoveOf(s.store, x, e.i).task;
    CountUpdate(s.tasks, e.t, y, Joining(k));
    CountUpdate(s.tasks, e.t, y, LeavingFrom(k));
    LeasesAfterRetain(s.store.leases, k, k);
  }

  lemma SoleJoins(s: State, e: Event, k: SessionKey)
    requires Allowed(s, e) && OnlyAttach(s.tasks, e.t, k) && SoleOk(s.store, s.tasks, e.t, k)
    requires !HasJoined(s.tasks[e.t])
    ensures SoleOk(Next(s, e).store, Next(s, e).tasks, e.t, k)
  {
    var x := s.tasks[e.t];
    var m := MoveOf(s.store, x, e.i);
    AttachingMove(s.store, x, e.i, k);
    CountNone(s.tasks, Joining(k));
    CountNone(s.tasks, LeavingFrom(k));
    CountUpdate(s.tasks, e.t, m.task, Joining(k));
    CountUpdate(s.tasks, e.t, m.task, LeavingFrom(k));
    assert |LeaseIdsOn(m.store.leases, k)| == 0;
  }

  lemma SoleStep(s: State, e: Event, a: Tid, k: SessionKey)
    requires Sound(s) && FewCalls(s) && Allowed(s, e) && OnlyAttach(s.tasks, a, k) && SoleOk(s.store, s.tasks, a, k)
    ensures OnlyAttach(Next(s, e).tasks, a, k) && SoleOk(Next(s, e).store, Next(s, e).tasks, a, k)
  {
    var x := s.tasks[e.t];
    GateMove(s.store, x, e.i, k);
    if HasJoined(s.tasks[a]) {
      if HasJoined(x) {
        JoinedMove(s.store, x, e.i);
      }
      if k !in s.store.sessions {
        NoJoinMove(s.store, x, e.i, k);
      } else if !Removes(x, k) {
        RefCountStep(s, e, k);
      } else if k in Next(s, e).store.sessions {
        RemovalSurplus(s, e, k);
      }
    } else if e.t == a {
      SoleJoins(s, e, k);
    } else {
      AbsentMove(s.store, x, e.i, k);
    }
  }

  lemma {:induction false} SoleRun(s: State, run: seq<Event>, a: Tid, k: SessionKey)
    requires Sound(s) && FewCalls(s) && IsRun(s, run) && OnlyAttach(s.tasks, a, k) && SoleOk(s.store, s.tasks, a, k)
    ensures |After(s, run).tasks| == |s.tasks| && SoleOk(After(s, run).store, After(s, run).tasks, a, k)
    decreases |run|
  {
    if run != [] {
      SoundStep(s, run[0]);
      SoleStep(s, run[0], a, k);
      SoleRun(Next(s, run[0]), run[1..], a, k);
    }
  }

  // ----- Every run keeps idle sessions free of leases, if ...

  lemma FreeIfCovered(st: Store, tasks: seq<Task>, k: SessionKey)
    requires k in st.sessions ==> Surplus(st, tasks, k) >= 0 || st.sessions[k].refCount > 0
    ensures IdleIsFree(st, k)
  {
    if k in st.sessions && st.sessions[k].refCount == 0 {
      assert |LeaseIdsOn(st.leases, k)| == 0;
    }
  }

  lemma FreeWithoutRemoval(s0: State, run: seq<Event>, k: SessionKey)
    requires Reachable(s0, run) && FewCalls(s0) && NeverRemoved(s0.tasks, k)
    ensures IdleIsFree(After(s0, run).store, k)
  {
    NeverBegins(s0, run, k);
    RefCountsAreExact(s0, run, k);
    FreeIfCovered(After(s0, run).store, After(s0, run).tasks, k);
  }

  lemma FreeWithoutRelease(s0: State, run: seq<Event>, k: SessionKey)
    requires Reachable(s0, run) && FewCalls(s0) && NoneReleased(s0.tasks, Count(s0.tasks, Acquires))
    ensures IdleIsFree(After(s0, run).store, k)
  {
    StartIsSound(s0);
    NeverLeftRun(s0, run, k);
    FreeIfCovered(After(s0, run).store, After(s0, run).tasks, k);
  }

  lemma FreeWithOneAttach(s0: State, run: seq<Event>, k: SessionKey)
    requires Reachable(s0, run) && FewCalls(s0) && !TwoAttach(s0.tasks, k)
    ensures IdleIsFree(After(s0, run).store, k)
  {
    StartIsSound(s0);
    if a :| 0 <= a < |s0.tasks| && Attaches(s0.tasks[a], k) {
      forall t | 0 <= t < |s0.tasks| && Attaches(s0.tasks[t], k) ensures t == a {
        assert !(t < a) && !(a < t);
      }
      assert LeaseIdsOn(s0.store.leases, k) == {};
      SoleRun(s0, run, a, k);
    } else {
      StaysAbsent(s0, run, k);
    }
    FreeIfCovered(After(s0, run).store, After(s0, run).tasks, k);
  }

  // ----- ... and the runs that do not

  /** All members of a class but two, at most, are in another. */
  lemma {:induction false} CountButTwo(tasks: seq<Task>, a: int, b: int, small: Class, large: Class)
    requires forall t :: 0 <= t < |tasks| && t != a && t != b && In(tasks[t], large) ==> In(tasks[t], small)
    ensures Count(tasks, large) <= Count(tasks, small) + One(0 <= a < |tasks|) + One(0 <= b < |tasks|)
  {
    if tasks != [] {
      var rest := tasks[1..];
      forall t | 0 <= t < |rest| && t != a - 1 && t != b - 1 && In(rest[t], large) ensures In(rest[t], small) {
        assert rest[t] == tasks[t + 1];
      }
      CountButTwo(rest, a - 1, b - 1, small, large);
    }
  }

  /** `m` whole attaches that spare the tasks `a` and `b`. */
  ghost predicate ManyAttached(s0: State, s: State, m: nat, a: Tid, b: Tid) {
    && |s.tasks| == |s0.tasks| && a < |s.tasks| && b < |s.tasks|
    && s.tasks[a] == s0.tasks[a] && s.tasks[b] == s0.tasks[b]
    && (forall t :: 0 <= t < |s.tasks| ==>
          s.tasks[t] == s0.tasks[t] || (s0.tasks[t].Acquire? && s.tasks[t].Acquire? && Finished(s.tasks[t])))
    && Quiet(s) && s.store.leaseSeq == m + 1 && s.store.counters.attach == m
  }

  /** Nobody is in the middle of a guarded region or of a spawn. */
  ghost predicate Quiet(s: State) {
    s.sessionsLock == FREE && s.leasesLock == FREE && Calm(s.store)
  }

  lemma AnotherAttach(s0: State, run: seq<Event>, m: nat, a: Tid, b: Tid) returns (t: Tid)
    requires Reachable(s0, run) && ManyAttached(s0, After(s0, run), m, a, b)
    requires m + 3 <= Count(s0.tasks, Acquires)
    ensures t < |s0.tasks| && t != a && t != b && s0.tasks[t].Acquire? && After(s0, run).tasks[t] == s0.tasks[t]
  {
    var s := After(s0, run);
    ReachableIsSound(s0, run);
    RunKeepsAcquires(s0, run);
    if forall t :: 0 <= t < |s.tasks| && t != a && t != b && In(s.tasks[t], Acquires) ==> In(s.tasks[t], Attached) {
      CountButTwo(s.tasks, a, b, Attached, Acquires);
      assert false;
    }
    t :| 0 <= t < |s.tasks| && t != a && t != b && In(s.tasks[t], Acquires) && !In(s.tasks[t], Attached);
  }

  /** What an attach that spawns or reuses leaves behind. */
  ghost predicate AttachDone(st: Store, st': Store, k: SessionKey, kind: Option<ClientKind>) {
    && st'.leases == st.leases[LeaseName(st.leaseSeq) := LeaseRecord(k, kind)]
    && k in st'.sessions && !st'.sessions[k].terminating
    && (k !in st.sessions ==> st'.sessions[k].refCount == 1)
    && st'.leaseSeq == st.leaseSeq + 1 && st'.counters.attach == st.counters.attach + 1
  }

  lemma AttachEffect(st: Store, k: SessionKey, kind: Option<ClientKind>, handle: SessionHandle)
    requires Calm(st)
    ensures Calm(AcquireCall(st, k, kind, Some(handle), 0))
    ensures AttachDone(st, AcquireCall(st, k, kind, Some(handle), 0), k, kind)
  {
    var attach := Attach(k, kind, Some(handle), 0);
    CallKeepsCalm(st, attach);
    SeqGrowsSlowly(st, attach);
    AcquireAddsOneLease(st, k, kind, Some(handle), 0);
    if k !in st.sessions {
      assert AcquireCall(st, k, kind, Some(handle), 0) == SpawnFor(EnterGate(st, k), k, kind, Some(handle), 0);
    }
  }

  /** One whole attach, which spawns or reuses. */
  lemma ThenAttach(s0: State, run: seq<Event>, t: Tid, k: SessionKey) returns (longer: seq<Event>)
    requires IsRun(s0, run) && t < |After(s0, run).tasks|
    requires var s := After(s0, run); Attaches(s.tasks[t], k) && AtStart(s.tasks[t]) && Quiet(s)
    ensures IsRun(s0, longer)
    ensures var s, s' := After(s0, run), After(s0, longer);
            && AttachDone(s.store, s'.store, k, s.tasks[t].kind) && Quiet(s')
            && |s'.tasks| == |s.tasks| && IsGranted(s'.tasks[t], s.store.leaseSeq)
            && (forall u :: 0 <= u < |s.tasks| && u != t ==> s'.tasks[u] == s.tasks[u])
  {
    var s := After(s0, run);
    if k in s.store.spawnGates {
      assert !GateAt(s.store, s.store.spawnGates[k]).started;
    }
    longer := ThenCall(s0, run, t, Inp(k));
    AttachEffect(s.store, k, s.tasks[t].kind, Inp(k).spawned.value);
  }

  /** The first lock region of a release. */
  lemma ThenTake(s0: State, run: seq<Event>, t: Tid, id: string, k: SessionKey) returns (longer: seq<Event>)
    requires IsRun(s0, run) && t < |After(s0, run).tasks|
    requires var s := After(s0, run);
             s.tasks[t] == Release(id, TakingLease) && id in LeaseIdsOn(s.store.leases, k) && Quiet(s)
    ensures IsRun(s0, longer)
    ensures var s, s' := After(s0, run), After(s0, longer);
            && s'.store == s.store.(leases := s.store.leases - {id}, released := s.store.released + {id}) && Quiet(s')
            && s'.tasks == s.tasks[t := Release(id, Leaving(k))]
  {
    longer := ThenStep(s0, run, Event(t, Inp(k)));
    CalmKept(After(s0, run).store, After(s0, longer).store);
  }

  /** The second lock region of a release. */
  lemma ThenLeave(s0: State, run: seq<Event>, t: Tid, id: string, k: SessionKey) returns (longer: seq<Event>)
    requires IsRun(s0, run) && t < |After(s0, run).tasks|
    requires var s := After(s0, run);
             s.tasks[t] == Release(id, Leaving(k)) && k in s.store.sessions && Quiet(s)
    ensures IsRun(s0, longer)
    ensures var s, s' := After(s0, run), After(s0, longer);
            && s'.store == s.store.(sessions := s.store.sessions[k := Left(s.store.sessions[k], 0)]) && Quiet(s')
            && s'.tasks == s.tasks[t := Release(id, Released)]
  {
    longer := ThenStep(s0, run, Event(t, Inp(k)));
    CalmKept(After(s0, run).store, After(s0, longer).store);
  }

  /** The first lock region of a removal. */
  lemma ThenDropSession(s0: State, run: seq<Event>, t: Tid, k: SessionKey) returns (longer: seq<Event>)
    requires IsRun(s0, run) && t < |After(s0, run).tasks|
    requires var s := After(s0, run); s.tasks[t] == Remove(k, DroppingSession) && Quiet(s)
    ensures IsRun(s0, longer)
    ensures var s, s' := After(s0, run), After(s0, longer);
            && s'.store == s.store.(sessions := s.store.sessions - {k}) && Quiet(s')
            && s'.tasks == s.tasks[t := Remove(k, DroppingLeases)]
  {
    longer := ThenStep(s0, run, Event(t, Inp(k)));
    CalmKept(After(s0, run).store, After(s0, longer).store);
  }

  /** A whole removal. */
  lemma ThenRemove(s0: State, run: seq<Event>, t: Tid, k: SessionKey) returns (longer: seq<Event>)
    requires IsRun(s0, run) && t < |After(s0, run).tasks|
    requires var s := After(s0, run); s.tasks[t] == Remove(k, DroppingSession) && Quiet(s)
    ensures IsRun(s0, longer)
    ensures var s, s' := After(s0, run), After(s0, longer);
            && k !in s'.store.sessions && s'.store.leaseSeq == s.store.leaseSeq && Quiet(s')
            && |s'.tasks| == |s.tasks|
            && (forall u :: 0 <= u < |s.tasks| && u != t ==> s'.tasks[u] == s.tasks[u])
  {
    longer := ThenCall(s0, run, t, Inp(k));
    CallKeepsCalm(After(s0, run).store, Discard(k));
  }

  lemma {:induction false} AttachMany(s0: State, m: nat, a: Tid, b: Tid) returns (run: seq<Event>)
    requires Init(s0) && a < |s0.tasks| && b < |s0.tasks| && m + 2 <= Count(s0.tasks, Acquires)
    ensures Reachable(s0, run) && ManyAttached(s0, After(s0, run), m, a, b)
  {
    if m == 0 {
      run := [];
    } else {
      run := AttachMany(s0, m - 1, a, b);
      var t := AnotherAttach(s0, run, m - 1, a, b);
      run := ThenAttach(s0, run, t, s0.tasks[t].key);
    }
  }

  /** The calls that together can make a leased session look idle. */
  ghost predicate Culprits(s0: State, a: Tid, b: Tid, r: Tid, x: Tid, n: nat, k: SessionKey) {
    && a < |s0.tasks| && b < |s0.tasks| && r < |s0.tasks| && x < |s0.tasks| && a != b
    && Attaches(s0.tasks[a], k) && Attaches(s0.tasks[b], k) && Removes(s0.tasks[r], k)
    && s0.tasks[x].Release? && s0.tasks[x].leaseId == LeaseName(n)
  }

  /** The session of `k` looks idle, and the lease `id` is on it. */
  ghost predicate IdleButLeased(st: Store, k: SessionKey, id: string) {
    && k in st.sessions && st.sessions[k].refCount == 0 && !st.sessions[k].terminating
    && id in LeaseIdsOn(st.leases, k)
  }

  /** No other call of the run than attaches and these two has begun. */
  ghost predicate OthersAtStart(s0: State, s: State, r: Tid, x: Tid) {
    |s.tasks| == |s0.tasks| &&
    forall t :: 0 <= t < |s.tasks| && !s0.tasks[t].Acquire? && t != r && t != x ==> s.tasks[t] == s0.tasks[t]
  }

  /** Attaches up to number `n`, and the first lock region of the release of that lease. */
  lemma HalfReleasedLease(s0: State, a: Tid, b: Tid, r: Tid, x: Tid, n: nat, k: SessionKey)
    returns (run: seq<Event>)
    requires Init(s0) && Culprits(s0, a, b, r, x, n, k) && 1 <= n < Count(s0.tasks, Acquires)
    ensures Reachable(s0, run)
    ensures var s := After(s0, run);
            && OthersAtStart(s0, s, r, x) && s.tasks[b] == s0.tasks[b] && s.tasks[r] == s0.tasks[r]
            && s.tasks[x] == Release(LeaseName(n), Leaving(k)) && Quiet(s) && s.store.leaseSeq == n + 1
  {
    run := AttachMany(s0, n - 1, a, b);
    run := ThenAttach(s0, run, a, k);
    run := ThenTake(s0, run, x, LeaseName(n), k);
  }

  /** A removal and a new attach overtake the rest of that release. */
  lemma LateReleaseMakesIdle(s0: State, a: Tid, b: Tid, r: Tid, x: Tid, n: nat, k: SessionKey)
    returns (run: seq<Event>)
    requires Init(s0) && Culprits(s0, a, b, r, x, n, k) && 1 <= n < Count(s0.tasks, Acquires)
    ensures Reachable(s0, run)
    ensures var s := After(s0, run);
            && OthersAtStart(s0, s, r, x) && Quiet(s)
            && IsGranted(s.tasks[b], n + 1) && IdleButLeased(s.store, k, LeaseName(n + 1))
  {
    run := HalfReleasedLease(s0, a, b, r, x, n, k);
    run := ThenRemove(s0, run, r, k);
    run := ThenAttach(s0, run, b, k);
    run := ThenLeave(s0, run, x, LeaseName(n), k);
  }

  /** Attaches up to number `n - 1`, then the first lock region of a removal. */
  lemma SessionDropped(s0: State, a: Tid, b: Tid, r: Tid, x: Tid, n: nat, k: SessionKey) returns (run: seq<Event>)
    requires Init(s0) && Culprits(s0, a, b, r, x, n, k) && 2 <= n <= Count(s0.tasks, Acquires)
    ensures Reachable(s0, run)
    ensures var s := After(s0, run);
            && |s.tasks| == |s0.tasks| && s.tasks[x] == s0.tasks[x] && s.tasks[a] == s0.tasks[a] && Quiet(s)
            && k !in s.store.sessions && s.store.leaseSeq == n && LeaseName(n - 1) in LeaseIdsOn(s.store.leases, k)
  {
    run := AttachMany(s0, n - 2, a, b);
    run := ThenAttach(s0, run, b, k);
    run := ThenDropSession(s0, run, r, k);
  }

  /** ... and attach number `n`, which starts a new session. */
  lemma HalfRemovedSession(s0: State, a: Tid, b: Tid, r: Tid, x: Tid, n: nat, k: SessionKey)
    returns (run: seq<Event>)
    requires Init(s0) && Culprits(s0, a, b, r, x, n, k) && FewCalls(s0) && 2 <= n <= Count(s0.tasks, Acquires)
    ensures Reachable(s0, run)
    ensures var s, st := After(s0, run), After(s0, run).store;
            && |s.tasks| == |s0.tasks| && s.tasks[x] == s0.tasks[x] && Quiet(s)
            && k in st.sessions && st.sessions[k].refCount == 1 && !st.sessions[k].terminating
            && LeaseName(n) in LeaseIdsOn(st.leases, k) && LeaseName(n - 1) in LeaseIdsOn(st.leases, k)
            && LeaseName(n) != LeaseName(n - 1)
  {
    if LeaseName(n) == LeaseName(n - 1) {
      LeaseNamesDistinct(n, n - 1);
    }
    run := SessionDropped(s0, a, b, r, x, n, k);
    run := ThenAttach(s0, run, a, k);
  }

  /** A release of the newer lease leaves the older one, which that removal is still to drop. */
  lemma HalfRemovalMakesIdle(s0: State, a: Tid, b: Tid, r: Tid, x: Tid, n: nat, k: SessionKey)
    returns (run: seq<Event>)
    requires Init(s0) && Culprits(s0, a, b, r, x, n, k) && FewCalls(s0) && 2 <= n <= Count(s0.tasks, Acquires)
    ensures Reachable(s0, run) && IdleButLeased(After(s0, run).store, k, LeaseName(n - 1))
  {
    run := HalfRemovedSession(s0, a, b, r, x, n, k);
    run := ThenTake(s0, run, x, LeaseName(n), k);
    run := ThenLeave(s0, run, x, LeaseName(n), k);
  }

  lemma LeasedIsNotFree(st: Store, k: SessionKey, id: string)
    requires IdleButLeased(st, k, id)
    ensures !IdleIsFree(st, k)
  {
    var now := st.sessions[k].lastUsed + st.idleTtl;
    assert IsIdle(st.sessions[k], now, st.idleTtl);
  }

  /**
   In every run a session of `k` that looks idle is free of leases exactly when no call removes `k`, or at most one
   attaches it, or no release names a lease that the attaches of the run may be granted.
   */
  lemma IdleIsFreeExactlyWhen(s0: State, k: SessionKey)
    requires Init(s0) && FewCalls(s0)
    ensures (forall run :: IsRun(s0, run) ==> IdleIsFree(After(s0, run).store, k)) <==>
            || NeverRemoved(s0.tasks, k)
            || !TwoAttach(s0.tasks, k)
            || NoneReleased(s0.tasks, Count(s0.tasks, Acquires))
  {
    if NeverRemoved(s0.tasks, k) {
      forall run | IsRun(s0, run) ensures IdleIsFree(After(s0, run).store, k) {
        FreeWithoutRemoval(s0, run, k);
      }
    } else if !TwoAttach(s0.tasks, k) {
      forall run | IsRun(s0, run) ensures IdleIsFree(After(s0, run).store, k) {
        FreeWithOneAttach(s0, run, k);
      }
    } else if NoneReleased(s0.tasks, Count(s0.tasks, Acquires)) {
      forall run | IsRun(s0, run) ensures IdleIsFree(After(s0, run).store, k) {
        FreeWithoutRelease(s0, run, k);
      }
    } else {
      var run := IdleLeaseRun(s0, k);
    }
  }

  lemma FindCulprits(s0: State, k: SessionKey) returns (a: Tid, b: Tid, r: Tid, x: Tid, n: nat)
    requires !NeverRemoved(s0.tasks, k) && TwoAttach(s0.tasks, k)
    requires !NoneReleased(s0.tasks, Count(s0.tasks, Acquires))
    ensures Culprits(s0, a, b, r, x, n, k) && 1 <= n <= Count(s0.tasks, Acquires) && Count(s0.tasks, Acquires) >= 2
  {
    a, b :| 0 <= a < b < |s0.tasks| && Attaches(s0.tasks[a], k) && Attaches(s0.tasks[b], k);
    r :| 0 <= r < |s0.tasks| && Removes(s0.tasks[r], k);
    x :| 0 <= x < |s0.tasks| && ReleasesOneOf(s0.tasks[x], Count(s0.tasks, Acquires));
    n :| 1 <= n <= Count(s0.tasks, Acquires) && s0.tasks[x].leaseId == LeaseName(n);
    CountPair(s0.tasks, a, b, Acquires);
  }

  lemma IdleLeaseRun(s0: State, k: SessionKey) returns (run: seq<Event>)
    requires Init(s0) && FewCalls(s0) && !NeverRemoved(s0.tasks, k) && TwoAttach(s0.tasks, k)
    requires !NoneReleased(s0.tasks, Count(s0.tasks, Acquires))
    ensures Reachable(s0, run) && !IdleIsFree(After(s0, run).store, k)
  {
    var a, b, r, x, n := FindCulprits(s0, k);
    if n < Count(s0.tasks, Acquires) {
      run := LateReleaseMakesIdle(s0, a, b, r, x, n, k);
      LeasedIsNotFree(After(s0, run).store, k, LeaseName(n + 1));
    } else {
      run := HalfRemovalMakesIdle(s0, a, b, r, x, n, k);
      LeasedIsNotFree(After(s0, run).store, k, LeaseName(n - 1));
    }
  }

  // ----- What the eviction loop does with such a session

  lemma StepFirst(s: State, e: Event, run: seq<Event>)
    requires Allowed(s, e) && IsRun(Next(s, e), run)
    ensures IsRun(s, [e] + run) && After(s, [e] + run) == After(Next(s, e), run)
  {
    assert ([e] + run)[1..] == run;
  }

  /** Three steps in a row. */
  lemma ThreeSteps(s: State, e: Event, f: Event)
    requires Allowed(s, e) && Allowed(Next(s, e), f) && Allowed(Next(Next(s, e), f), f)
    ensures IsRun(s, [e, f, f]) && After(s, [e, f, f]) == Next(Next(Next(s, e), f), f)
  {
    OneEvent(Next(Next(s, e), f), f);
    StepFirst(Next(s, e), f, [f]);
    StepFirst(s, e, [f] + [f]);
    assert [e] + ([f] + [f]) == [e, f, f];
  }

  /**
   From such a state one tick, a marking and the first two lock regions of its removal, drops a lease that a client
   was granted and nobody has released.
   */
  lemma TickDropsLease(s0: State, a: Tid, b: Tid, r: Tid, x: Tid, n: nat, k: SessionKey, mark: Tid, evict: Tid)
    returns (run: seq<Event>, now: nat)
    requires Init(s0) && Culprits(s0, a, b, r, x, n, k) && 1 <= n < Count(s0.tasks, Acquires)
    requires mark < |s0.tasks| && s0.tasks[mark].Idle?
    requires evict < |s0.tasks| && evict != r && Removes(s0.tasks[evict], k)
    ensures Reachable(s0, run)
    ensures var s, i := After(s0, run), Input(now, None, true);
            var tick := [Event(mark, i), Event(evict, i), Event(evict, i)];
            && |s.tasks| == |s0.tasks| && IsGranted(s.tasks[b], n + 1)
            && LeaseName(n + 1) in LeaseIdsOn(s.store.leases, k)
            && k in s.store.sessions && IsIdle(s.store.sessions[k], now, s.store.idleTtl)
            && IsRun(s, tick) && LeaseName(n + 1) !in After(s, tick).store.leases
  {
    run := LateReleaseMakesIdle(s0, a, b, r, x, n, k);
    var s := After(s0, run);
    now := s.store.sessions[k].lastUsed + s.store.idleTtl;
    ThreeSteps(s, Event(mark, Input(now, None, true)), Event(evict, Input(now, None, true)));
  }
}
