/** Which tasks hold which lock, and which task wakes whom, in every reachable state of `RegistrySteps`. */
module RegistryLocks {
  import opened Wrappers
  import opened RegistrySteps

  // ----- Guards kept across a wait

  predicate WritesSessions(x: Task) {
    x.Acquire? && HoldsSessions(x.apc)
  }

  predicate ReadsSessions(x: Task) {
    x.Observe? && (x.opc.ReadingLeases? || x.opc.ReadingCounters?)
  }

  predicate WritesLeases(x: Task) {
    x.Remove? && x.dpc.DroppingGates?
  }

  predicate ReadsLeases(x: Task) {
    x.Observe? && x.opc.ReadingCounters?
  }

  /** The lock names exactly the tasks inside the guarded regions; a writer is alone. */
  ghost predicate Guards(l: RwLock, w: Task -> bool, r: Task -> bool, tasks: seq<Task>) {
    && (forall t :: 0 <= t < |tasks| ==> (l.writer == Some(t) <==> w(tasks[t])) && (t in l.readers <==> r(tasks[t])))
    && (forall t :: t in l.readers ==> t < |tasks|)
    && (l.writer.Some? ==> l.writer.value < |tasks| && l.readers == {})
  }

  ghost predicate LocksOk(s: State) {
    && Guards(s.sessionsLock, WritesSessions, ReadsSessions, s.tasks)
    && Guards(s.leasesLock, WritesLeases, ReadsLeases, s.tasks)
  }

  /** Does a lock operation account for the change in what its task holds? */
  predicate Explains(op: LockOp, w: bool, r: bool, w': bool, r': bool) {
    match op
    case Take => w' && !r'
    case GiveBack => w && !r && !w' && !r'
    case EnterRead => !w && !w' && r'
    case LeaveRead => r && !w && !w' && !r'
    case _ => w' == w && r' == r
  }

  lemma OperationKeepsGuards(
    l: RwLock, op: LockOp, w: Task -> bool, r: Task -> bool, tasks: seq<Task>, t: Tid, x: Task
  )
    requires Guards(l, w, r, tasks) && t < |tasks| && Grants(l, op)
    requires Explains(op, w(tasks[t]), r(tasks[t]), w(x), r(x))
    ensures Guards(Operated(l, op, t), w, r, tasks[t := x])
  {
  }

  lemma MoveIsExplained(st: Store, x: Task, i: Input)
    requires !Finished(x)
    ensures var y := MoveOf(st, x, i).task;
            && Explains(SessionsOp(st, x), WritesSessions(x), ReadsSessions(x), WritesSessions(y), ReadsSessions(y))
            && Explains(LeasesOp(x), WritesLeases(x), ReadsLeases(x), WritesLeases(y), ReadsLeases(y))
  {
  }

  lemma LocksStep(s: State, e: Event)
    requires LocksOk(s) && Allowed(s, e)
    ensures LocksOk(Next(s, e))
  {
    var x := s.tasks[e.t];
    var y := MoveOf(s.store, x, e.i).task;
    MoveIsExplained(s.store, x, e.i);
    OperationKeepsGuards(s.sessionsLock, SessionsOp(s.store, x), WritesSessions, ReadsSessions, s.tasks, e.t, y);
    OperationKeepsGuards(s.leasesLock, LeasesOp(x), WritesLeases, ReadsLeases, s.tasks, e.t, y);
  }

  // ----- Gates

  ghost predicate GateOk(st: Store, tasks: seq<Task>, g: GateId) {
    && Count(tasks, SpawningUnder(g)) == One(GateAt(st, g).started)
    && Count(tasks, NotifiedUnder(g)) == GateAt(st, g).epoch
  }

  /** A waiter that has not been woken waits on a started gate. */
  predicate WaitOk(g: Gate, seen: nat, rounds: nat) {
    && seen <= g.epoch
    && (seen == g.epoch ==> g.started)
    && rounds <= seen + 1
  }

  /** What one task knows about its gate, and how often it can have gone round the loop. */
  predicate TaskGateOk(st: Store, x: Task) {
    x.Acquire? ==>
      && (HasGate(x.apc) ==> x.gate < |st.gates|)
      && (x.apc.Waiting? ==> WaitOk(GateAt(st, x.gate), x.apc.seen, x.rounds))
      && x.rounds <= GateAt(st, x.gate).epoch + One(!HasNotified(x.apc))
      && x.spawns == One(x.apc.Spawning? || x.apc.Resetting? || HasNotified(x.apc))
  }

  ghost predicate GatesOk(st: Store, tasks: seq<Task>) {
    && (forall k :: k in st.spawnGates ==> st.spawnGates[k] < |st.gates|)
    && (forall g: GateId :: GateOk(st, tasks, g))
    && (forall t :: 0 <= t < |tasks| ==> TaskGateOk(st, tasks[t]))
  }

  /** A task that is spawning finds its gate started. */
  lemma SpawnerGateStarted(st: Store, tasks: seq<Task>, t: Tid)
    requires GatesOk(st, tasks) && t < |tasks| && tasks[t].Acquire?
    requires tasks[t].apc.Spawning? || tasks[t].apc.Resetting?
    ensures tasks[t].gate < |st.gates| && GateAt(st, tasks[t].gate).started
  {
    assert TaskGateOk(st, tasks[t]);
    var g := tasks[t].gate;
    assert GateOk(st, tasks, g);
    CountMember(tasks, t, SpawningUnder(g));
  }

  /** What a step does to one gate: nothing, start it, or reset it and wake its waiters. */
  lemma EpochMove(st: Store, x: Task, i: Input, g: GateId)
    requires x.Acquire? && HasGate(x.apc) ==> x.gate < |st.gates|
    ensures var m := MoveOf(st, x, i);
            GateAt(m.store, g).epoch ==
            GateAt(st, g).epoch - One(In(x, NotifiedUnder(g))) + One(In(m.task, NotifiedUnder(g)))
  {
    if x.Acquire? {
      match x.apc
      case FindingGate =>
      case TakingGate =>
      case Resetting(_) =>
      case _ =>
        assert MoveOf(st, x, i).store.gates == st.gates;
    }
  }

  lemma StartedMove(st: Store, x: Task, i: Input, g: GateId)
    requires x.Acquire? && HasGate(x.apc) ==> x.gate < |st.gates|
    requires x.Acquire? && x.apc.Resetting? ==> GateAt(st, x.gate).started
    ensures var m := MoveOf(st, x, i);
            One(GateAt(m.store, g).started) ==
            One(GateAt(st, g).started) - One(In(x, SpawningUnder(g))) + One(In(m.task, SpawningUnder(g)))
  {
    if x.Acquire? {
      match x.apc
      case FindingGate =>
      case TakingGate =>
      case Resetting(_) =>
      case _ =>
        assert MoveOf(st, x, i).store.gates == st.gates;
    }
  }

  lemma GateOkStep(s: State, e: Event, g: GateId)
    requires GatesOk(s.store, s.tasks) && Allowed(s, e)
    ensures GateOk(Next(s, e).store, Next(s, e).tasks, g)
  {
    var x := s.tasks[e.t];
    assert TaskGateOk(s.store, x) && GateOk(s.store, s.tasks, g);
    if x.Acquire? && (x.apc.Spawning? || x.apc.Resetting?) {
      SpawnerGateStarted(s.store, s.tasks, e.t);
    }
    var y := MoveOf(s.store, x, e.i).task;
    EpochMove(s.store, x, e.i, g);
    StartedMove(s.store, x, e.i, g);
    CountUpdate(s.tasks, e.t, y, SpawningUnder(g));
    CountUpdate(s.tasks, e.t, y, NotifiedUnder(g));
  }

  lemma GatesStep(s: State, e: Event)
    requires GatesOk(s.store, s.tasks) && Allowed(s, e)
    ensures GatesOk(Next(s, e).store, Next(s, e).tasks)
  {
    var x, s' := s.tasks[e.t], Next(s, e);
    assert TaskGateOk(s.store, x);
    forall g: GateId ensures GateOk(s'.store, s'.tasks, g) {
      GateOkStep(s, e, g);
    }
    GateIdsStep(s.store, x, e.i);
    forall u | 0 <= u < |s'.tasks| ensures TaskGateOk(s'.store, s'.tasks[u]) {
      assert TaskGateOk(s.store, s.tasks[u]);
      if u == e.t {
        OwnGateStep(s.store, x, e.i);
      } else {
        OtherGateStep(s.store, x, e.i, s.tasks[u]);
      }
    }
  }

  lemma GateIdsStep(st: Store, x: Task, i: Input)
    requires forall k :: k in st.spawnGates ==> st.spawnGates[k] < |st.gates|
    ensures var st' := MoveOf(st, x, i).store;
            forall k :: k in st'.spawnGates ==> st'.spawnGates[k] < |st'.gates|
  {
  }

  /** Any step that leaves the gates and the place in the loop alone. */
  lemma QuietGateStep(st: Store, x: Task, i: Input)
    requires TaskGateOk(st, x)
    requires x.Acquire? && !x.apc.FindingGate? && !x.apc.TakingGate? && !x.apc.Resetting? && !x.apc.Waiting?
    ensures TaskGateOk(MoveOf(st, x, i).store, MoveOf(st, x, i).task)
  {
    assert MoveOf(st, x, i).store.gates == st.gates;
  }

  lemma OwnGateStep(st: Store, x: Task, i: Input)
    requires TaskGateOk(st, x) && Woken(st, x)
    requires x.Acquire? && x.key in st.spawnGates ==> st.spawnGates[x.key] < |st.gates|
    ensures TaskGateOk(MoveOf(st, x, i).store, MoveOf(st, x, i).task)
  {
    if x.Acquire? {
      match x.apc
      case FindingGate =>
      case TakingGate =>
      case Resetting(_) =>
      case Waiting(_) =>
      case _ =>
        QuietGateStep(st, x, i);
    }
  }

  lemma OtherGateStep(st: Store, x: Task, i: Input, other: Task)
    requires TaskGateOk(st, x) && TaskGateOk(st, other)
    ensures TaskGateOk(MoveOf(st, x, i).store, other)
  {
  }

  lemma StartOk(s: State)
    requires Init(s)
    ensures LocksOk(s) && GatesOk(s.store, s.tasks)
  {
    forall g: GateId ensures GateOk(s.store, s.tasks, g) {
      CountNone(s.tasks, SpawningUnder(g));
      CountNone(s.tasks, NotifiedUnder(g));
    }
  }

  lemma {:induction false} RunKeepsLocksAndGates(s: State, run: seq<Event>)
    requires LocksOk(s) && GatesOk(s.store, s.tasks) && IsRun(s, run)
    ensures LocksOk(After(s, run)) && GatesOk(After(s, run).store, After(s, run).tasks)
    decreases |run|
  {
    if run != [] {
      LocksStep(s, run[0]);
      GatesStep(s, run[0]);
      RunKeepsLocksAndGates(Next(s, run[0]), run[1..]);
    }
  }
}
