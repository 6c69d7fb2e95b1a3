/** The whole calls of `RegistryCalls` are what the lock regions of `RegistrySteps` add up to. */
module RegistrySolo {
  import opened Wrappers
  import opened RegistryTypes
  import opened RegistrySteps
  import opened RegistryLocks
  import opened RegistryCalls

  /** `n` steps of task `t` in a row. */
  function Alone(t: Tid, i: Input, n: nat): seq<Event> {
    if n == 0 then [] else [Event(t, i)] + Alone(t, i, n - 1)
  }

  function Moves(st: Store, x: Task, i: Input, n: nat): Move
    decreases n
  {
    if n == 0 then Move(st, x) else var m := MoveOf(st, x, i); Moves(m.store, m.task, i, n - 1)
  }

  function LockOf(t: Tid, w: bool, r: bool): RwLock {
    if w then RwLock(Some(t), {}) else if r then RwLock(None, {t}) else FREE
  }

  /** Only task `t` holds anything. */
  predicate SoloLocks(s: State, t: Tid)
    requires t < |s.tasks|
  {
    && s.sessionsLock == LockOf(t, WritesSessions(s.tasks[t]), ReadsSessions(s.tasks[t]))
    && s.leasesLock == LockOf(t, WritesLeases(s.tasks[t]), ReadsLeases(s.tasks[t]))
  }

  /** `m.task` has not finished and does not wait. */
  predicate CanMove(m: Move) {
    !Finished(m.task) && Woken(m.store, m.task)
  }

  lemma SoloStep(s: State, t: Tid, i: Input)
    requires t < |s.tasks| && SoloLocks(s, t) && CanMove(Move(s.store, s.tasks[t])) && Fits(s.tasks[t], i)
    ensures Allowed(s, Event(t, i)) && SoloLocks(Next(s, Event(t, i)), t)
    ensures Fits(Next(s, Event(t, i)).tasks[t], i)
  {
    var x := s.tasks[t];
    MoveIsExplained(s.store, x, i);
    SoloOps(s.store, x, i, t);
  }

  lemma SoloOps(st: Store, x: Task, i: Input, t: Tid)
    requires !Finished(x)
    ensures var y := MoveOf(st, x, i).task;
            && Grants(LockOf(t, WritesSessions(x), ReadsSessions(x)), SessionsOp(st, x))
            && Grants(LockOf(t, WritesLeases(x), ReadsLeases(x)), LeasesOp(x))
            && Operated(LockOf(t, WritesSessions(x), ReadsSessions(x)), SessionsOp(st, x), t) ==
               LockOf(t, WritesSessions(y), ReadsSessions(y))
            && Operated(LockOf(t, WritesLeases(x), ReadsLeases(x)), LeasesOp(x), t) ==
               LockOf(t, WritesLeases(y), ReadsLeases(y))
            && y.Acquire? == x.Acquire? && (x.Acquire? ==> y.key == x.key)
  {
  }

  lemma {:induction false} SoloRun(s: State, t: Tid, i: Input, n: nat)
    requires t < |s.tasks| && SoloLocks(s, t) && Fits(s.tasks[t], i)
    requires forall j :: 0 <= j < n ==> CanMove(Moves(s.store, s.tasks[t], i, j))
    ensures IsRun(s, Alone(t, i, n))
    ensures var s' := After(s, Alone(t, i, n));
            && s'.store == Moves(s.store, s.tasks[t], i, n).store
            && s'.tasks == s.tasks[t := Moves(s.store, s.tasks[t], i, n).task]
            && SoloLocks(s', t)
    decreases n
  {
    if n == 0 {
      assert s.tasks == s.tasks[t := s.tasks[t]];
    } else {
      assert CanMove(Moves(s.store, s.tasks[t], i, 0));
      SoloStep(s, t, i);
      var s1 := Next(s, Event(t, i));
      forall j | 0 <= j < n - 1 ensures CanMove(Moves(s1.store, s1.tasks[t], i, j)) {
        assert CanMove(Moves(s.store, s.tasks[t], i, j + 1));
      }
      SoloRun(s1, t, i, n - 1);
      assert Alone(t, i, n)[0] == Event(t, i) && Alone(t, i, n)[1..] == Alone(t, i, n - 1);
    }
  }

  /** The whole call that a task stands for. */
  function WholeCall(st: Store, x: Task, i: Input): Store {
    match x
    case Acquire(key, kind, _, _, _, _) => AcquireCall(st, key, kind, i.spawned, i.now)
    case Release(id, _) => ReleaseCall(st, id, i.now)
    case Remove(key, _) => RemoveCall(st, key)
    case Forward(id, _) => ForwardCall(st, id, i.now, if i.answered then Some(i.now) else None).0
    case Observe(_, _) => st
    case Idle(_) => IdleCall(st, i.now)
    case Mark(key, notice, _) => MarkCall(st, key, notice)
  }

  /** How many lock regions the call of `x` goes through when it runs alone. */
  function Regions(st: Store, x: Task, i: Input): nat {
    match x
    case Acquire(key, _, _, _, _, _) => if key in st.sessions then 6 else if i.spawned.Some? then 10 else 7
    case Release(id, _) => if id in st.leases then 2 else 1
    case Remove(_, _) => 3
    case Forward(id, _) =>
      if id !in st.leases then 1
      else if st.leases[id].key !in st.sessions || st.sessions[st.leases[id].key].terminating then 2
      else if i.answered then 4 else 3
    case Observe(counters, _) => if counters then 3 else 2
    case Idle(_) => 1
    case Mark(_, _, _) => 1
  }

  lemma {:induction false} MovesSnoc(st: Store, x: Task, i: Input, n: nat)
    ensures var m := Moves(st, x, i, n);
            Moves(st, x, i, n + 1) == MoveOf(m.store, m.task, i)
    decreases n
  {
    var m := MoveOf(st, x, i);
    if n == 0 {
      assert Moves(m.store, m.task, i, 0) == m;
    } else {
      MovesSnoc(m.store, m.task, i, n - 1);
    }
  }

  /** If the key has a gate, nobody is spawning under it. */
  predicate GateFree(st: Store, key: SessionKey) {
    key in st.spawnGates ==> st.spawnGates[key] < |st.gates| && !GateAt(st, st.spawnGates[key]).started
  }

  /** `x` at `pc`, with the gate of its key, in its first round. */
  function At(st: Store, x: Task, pc: AcquirePc, spawns: nat): Task
    requires x.Acquire? && x.key in st.spawnGates
  {
    x.(apc := pc, gate := st.spawnGates[x.key], rounds := 1, spawns := spawns)
  }

  lemma AttachUpToLooking(st: Store, x: Task, i: Input)
    requires x.Acquire? && AtStart(x) && GateFree(st, x.key)
    ensures var entered := EnterGate(st, x.key);
            Moves(st, x, i, 2) == Move(entered, At(entered, x, Looking, 0))
    ensures CanMove(Moves(st, x, i, 0)) && CanMove(Moves(st, x, i, 1)) && CanMove(Moves(st, x, i, 2))
  {
    MovesSnoc(st, x, i, 0);
    MovesSnoc(st, x, i, 1);
    assert Moves(st, x, i, 0) == Move(st, x);
  }

  /** An attach that has returned lease number `n`. */
  predicate IsGranted(x: Task, n: nat) {
    x.Acquire? && x.apc.Acquired? && x.apc.n == n
  }

  /** From the counter bump to the returned lease, holding the session lock. */
  lemma LeasePart(st: Store, x: Task, i: Input, n: nat, joined: Store, origin: Origin)
    requires x.Acquire? && Moves(st, x, i, n).store == joined
    requires Moves(st, x, i, n).task.Acquire? && Moves(st, x, i, n).task.apc == CountingLease(origin)
    requires Moves(st, x, i, n).task.key == x.key && Moves(st, x, i, n).task.kind == x.kind
    ensures var c := joined.counters;
            Moves(st, x, i, n + 3).store ==
            IssueLease(joined.(counters := if origin.Reused? then c.(reused := c.reused + 1)
                               else c.(spawned := c.spawned + 1)), x.key, x.kind)
    ensures IsGranted(Moves(st, x, i, n + 3).task, joined.leaseSeq)
    ensures forall j :: n <= j < n + 3 ==> CanMove(Moves(st, x, i, j))
  {
    MovesSnoc(st, x, i, n);
    MovesSnoc(st, x, i, n + 1);
    MovesSnoc(st, x, i, n + 2);
    assert Moves(st, x, i, n + 1).task.apc == Issuing(origin);
    assert Moves(st, x, i, n + 2).task.apc == Recording(origin, joined.leaseSeq);
  }

  lemma ReusePart(st: Store, x: Task, i: Input)
    requires x.Acquire? && AtStart(x) && GateFree(st, x.key) && x.key in st.sessions
    ensures var entered := EnterGate(st, x.key);
            Moves(st, x, i, 3) ==
            Move(entered.(sessions := entered.sessions[x.key := Joined(entered.sessions[x.key], i.now)]),
                 At(entered, x, CountingLease(Reused), 0))
    ensures forall j :: 0 <= j < 3 ==> CanMove(Moves(st, x, i, j))
  {
    AttachUpToLooking(st, x, i);
    MovesSnoc(st, x, i, 2);
  }

  lemma SoloReuse(st: Store, x: Task, i: Input)
    requires x.Acquire? && AtStart(x) && GateFree(st, x.key) && x.key in st.sessions
    ensures Moves(st, x, i, 6).store == AcquireCall(st, x.key, x.kind, i.spawned, i.now)
    ensures IsGranted(Moves(st, x, i, 6).task, st.leaseSeq) && forall j :: 0 <= j < 6 ==> CanMove(Moves(st, x, i, j))
  {
    ReusePart(st, x, i);
    LeasePart(st, x, i, 3, Moves(st, x, i, 3).store, Reused);
  }

  function Started(st: Store, g: GateId): Store {
    WithGate(st, g, Gate(true, GateAt(st, g).epoch))
  }

  /** From the start to the running closure, when there is no session. */
  lemma SpawnStart(st: Store, x: Task, i: Input)
    requires x.Acquire? && AtStart(x) && GateFree(st, x.key) && x.key !in st.sessions
    ensures var entered := EnterGate(st, x.key);
            Moves(st, x, i, 4) == Move(Started(entered, entered.spawnGates[x.key]), At(entered, x, Spawning, 1))
    ensures forall j :: 0 <= j <= 4 ==> CanMove(Moves(st, x, i, j))
  {
    var entered := EnterGate(st, x.key);
    AttachUpToLooking(st, x, i);
    MovesSnoc(st, x, i, 2);
    assert Moves(st, x, i, 3) == Move(entered, At(entered, x, TakingGate, 0));
    MovesSnoc(st, x, i, 3);
  }

  lemma SpawnResult(st: Store, x: Task, i: Input)
    requires x.Acquire? && AtStart(x) && GateFree(st, x.key) && x.key !in st.sessions
    ensures var entered := EnterGate(st, x.key);
            Moves(st, x, i, 5) ==
            Move(Started(entered, entered.spawnGates[x.key]), At(entered, x, Resetting(i.spawned), 1))
    ensures forall j :: 0 <= j <= 5 ==> CanMove(Moves(st, x, i, j))
  {
    SpawnStart(st, x, i);
    MovesSnoc(st, x, i, 4);
  }

  /** ... and on to the reset of the gate. */
  lemma SpawnPart(st: Store, x: Task, i: Input)
    requires x.Acquire? && AtStart(x) && GateFree(st, x.key) && x.key !in st.sessions
    ensures var entered := EnterGate(st, x.key);
            Moves(st, x, i, 6) ==
            Move(Woke(entered, entered.spawnGates[x.key]),
                 At(entered, x, if i.spawned.Some? then Inserting(i.spawned.value) else DroppingGate, 1))
    ensures forall j :: 0 <= j <= 6 ==> CanMove(Moves(st, x, i, j))
  {
    var entered := EnterGate(st, x.key);
    SpawnResult(st, x, i);
    MovesSnoc(st, x, i, 5);
    ResetAfterStart(entered, entered.spawnGates[x.key]);
  }

  lemma ResetAfterStart(st: Store, g: GateId)
    ensures WithGate(Started(st, g), g, Gate(false, GateAt(Started(st, g), g).epoch + 1)) == Woke(st, g)
  {
    if g < |st.gates| {
      var a, b := Gate(true, GateAt(st, g).epoch), Gate(false, GateAt(st, g).epoch + 1);
      assert st.gates[g := a][g := b] == st.gates[g := b];
    }
  }

  function JoinedNew(st: Store, handle: SessionHandle, now: nat): Store {
    st.(sessions := st.sessions[handle.key := Joined(NewRecord(handle, now), now)])
  }

  lemma InsertMove(st: Store, x: Task, i: Input, handle: SessionHandle)
    requires x.Acquire? && x.apc == Inserting(handle) && x.key !in st.sessions && handle.key == x.key
    ensures MoveOf(st, x, i) == Move(JoinedNew(st, handle, i.now), x.(apc := CountingLease(Spawned)))
  {
  }

  lemma SpawnAndJoin(st: Store, x: Task, i: Input)
    requires x.Acquire? && AtStart(x) && GateFree(st, x.key) && x.key !in st.sessions
    requires i.spawned.Some? && i.spawned.value.key == x.key
    ensures var entered := EnterGate(st, x.key);
            var woken := Woke(entered, entered.spawnGates[x.key]);
            Moves(st, x, i, 7) ==
            Move(JoinedNew(woken, i.spawned.value, i.now), At(entered, x, CountingLease(Spawned), 1))
    ensures forall j :: 0 <= j < 7 ==> CanMove(Moves(st, x, i, j))
  {
    var entered := EnterGate(st, x.key);
    SpawnPart(st, x, i);
    MovesSnoc(st, x, i, 6);
    InsertMove(Woke(entered, entered.spawnGates[x.key]), Moves(st, x, i, 6).task, i, i.spawned.value);
  }

  lemma SoloSpawn(st: Store, x: Task, i: Input)
    requires x.Acquire? && AtStart(x) && GateFree(st, x.key) && x.key !in st.sessions
    requires i.spawned.Some? && i.spawned.value.key == x.key
    ensures Moves(st, x, i, 10).store == AcquireCall(st, x.key, x.kind, i.spawned, i.now)
    ensures IsGranted(Moves(st, x, i, 10).task, st.leaseSeq) && forall j :: 0 <= j < 10 ==> CanMove(Moves(st, x, i, j))
  {
    SpawnAndJoin(st, x, i);
    LeasePart(st, x, i, 7, Moves(st, x, i, 7).store, Spawned);
    SpawnedCall(st, x.key, x.kind, i.spawned.value, i.now);
  }

  lemma SpawnedCall(st: Store, key: SessionKey, kind: Option<ClientKind>, handle: SessionHandle, now: nat)
    requires key !in st.sessions && handle.key == key
    ensures var woken := Woke(EnterGate(st, key), EnterGate(st, key).spawnGates[key]);
            var joined := JoinedNew(woken, handle, now);
            AcquireCall(st, key, kind, Some(handle), now) ==
            IssueLease(joined.(counters := joined.counters.(spawned := joined.counters.spawned + 1)), key, kind)
  {
  }

  lemma SoloFailure(st: Store, x: Task, i: Input)
    requires x.Acquire? && AtStart(x) && GateFree(st, x.key) && x.key !in st.sessions && i.spawned.None?
    ensures Moves(st, x, i, 7).store == AcquireCall(st, x.key, x.kind, i.spawned, i.now)
    ensures Finished(Moves(st, x, i, 7).task) && forall j :: 0 <= j < 7 ==> CanMove(Moves(st, x, i, j))
  {
    SpawnPart(st, x, i);
    MovesSnoc(st, x, i, 6);
  }

  lemma SoloRemove(st: Store, x: Task, i: Input)
    requires x.Remove? && AtStart(x)
    ensures Moves(st, x, i, 3).store == RemoveCall(st, x.target)
    ensures Finished(Moves(st, x, i, 3).task) && forall j :: 0 <= j < 3 ==> CanMove(Moves(st, x, i, j))
  {
    MovesSnoc(st, x, i, 0);
    MovesSnoc(st, x, i, 1);
    MovesSnoc(st, x, i, 2);
    assert Moves(st, x, i, 0) == Move(st, x);
    assert Moves(st, x, i, 1).task == x.(dpc := DroppingLeases);
    assert Moves(st, x, i, 2).task == x.(dpc := DroppingGates);
  }

  lemma SoloRelease(st: Store, x: Task, i: Input)
    requires x.Release? && AtStart(x)
    ensures Moves(st, x, i, Regions(st, x, i)).store == ReleaseCall(st, x.leaseId, i.now)
    ensures Finished(Moves(st, x, i, Regions(st, x, i)).task)
    ensures forall j :: 0 <= j < Regions(st, x, i) ==> CanMove(Moves(st, x, i, j))
  {
    MovesSnoc(st, x, i, 0);
    MovesSnoc(st, x, i, 1);
    assert Moves(st, x, i, 0) == Move(st, x);
  }

  lemma SoloForward(st: Store, x: Task, i: Input)
    requires x.Forward? && AtStart(x)
    ensures Moves(st, x, i, Regions(st, x, i)).store == WholeCall(st, x, i)
    ensures Finished(Moves(st, x, i, Regions(st, x, i)).task)
    ensures forall j :: 0 <= j < Regions(st, x, i) ==> CanMove(Moves(st, x, i, j))
  {
    MovesSnoc(st, x, i, 0);
    MovesSnoc(st, x, i, 1);
    MovesSnoc(st, x, i, 2);
    MovesSnoc(st, x, i, 3);
    assert Moves(st, x, i, 0) == Move(st, x);
  }

  lemma SoloObserve(st: Store, x: Task, i: Input)
    requires x.Observe? && AtStart(x)
    ensures Moves(st, x, i, Regions(st, x, i)).store == st
    ensures Finished(Moves(st, x, i, Regions(st, x, i)).task)
    ensures forall j :: 0 <= j < Regions(st, x, i) ==> CanMove(Moves(st, x, i, j))
  {
    MovesSnoc(st, x, i, 0);
    MovesSnoc(st, x, i, 1);
    MovesSnoc(st, x, i, 2);
    assert Moves(st, x, i, 0) == Move(st, x);
  }

  lemma SoloMoves(st: Store, x: Task, i: Input)
    requires AtStart(x) && Fits(x, i) && (x.Acquire? ==> GateFree(st, x.key))
    ensures Moves(st, x, i, Regions(st, x, i)).store == WholeCall(st, x, i)
    ensures Finished(Moves(st, x, i, Regions(st, x, i)).task)
    ensures x.Acquire? && AcquireSucceeds(st, x.key, i.spawned) ==>
              IsGranted(Moves(st, x, i, Regions(st, x, i)).task, st.leaseSeq)
    ensures forall j :: 0 <= j < Regions(st, x, i) ==> CanMove(Moves(st, x, i, j))
  {
    match x
    case Acquire(key, _, _, _, _, _) => {
      if key in st.sessions {
        SoloReuse(st, x, i);
      } else if i.spawned.Some? {
        SoloSpawn(st, x, i);
      } else {
        SoloFailure(st, x, i);
      }
    }
    case Release(_, _) => SoloRelease(st, x, i);
    case Remove(_, _) => SoloRemove(st, x, i);
    case Forward(_, _) => SoloForward(st, x, i);
    case Observe(_, _) => SoloObserve(st, x, i);
    case Idle(_) => MovesSnoc(st, x, i, 0); assert Moves(st, x, i, 0) == Move(st, x);
    case Mark(_, _, _) => MovesSnoc(st, x, i, 0); assert Moves(st, x, i, 0) == Move(st, x);
  }

  /**
   Refinement: when no lock is held and no spawn is running for its key, letting one task run through all its lock
   regions finishes it and has exactly the effect of the whole call.
   */
  lemma CallsRefineSteps(s: State, t: Tid, i: Input)
    requires t < |s.tasks| && AtStart(s.tasks[t]) && Fits(s.tasks[t], i)
    requires s.sessionsLock == FREE && s.leasesLock == FREE
    requires s.tasks[t].Acquire? ==> GateFree(s.store, s.tasks[t].key)
    ensures var run := Alone(t, i, Regions(s.store, s.tasks[t], i));
            && IsRun(s, run)
            && After(s, run).store == WholeCall(s.store, s.tasks[t], i)
            && After(s, run).sessionsLock == FREE && After(s, run).leasesLock == FREE
            && |After(s, run).tasks| == |s.tasks| && Finished(After(s, run).tasks[t])
            && (s.tasks[t].Acquire? && AcquireSucceeds(s.store, s.tasks[t].key, i.spawned) ==>
                  IsGranted(After(s, run).tasks[t], s.store.leaseSeq))
            && forall u :: 0 <= u < |s.tasks| && u != t ==> After(s, run).tasks[u] == s.tasks[u]
  {
    SoloMoves(s.store, s.tasks[t], i);
    SoloRun(s, t, i, Regions(s.store, s.tasks[t], i));
  }
}
