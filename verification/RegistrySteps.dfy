/**
 The session registry as tasks see it when they run at the same time: one step per lock region of
 crates/lspee_daemon/src/registry.rs, one program counter per task.

 A region that takes a single lock and waits for nothing while it holds it is one step, allowed when
 the lock can be taken.  A guard held across another wait (the session lock while a lease is issued,
 the lease lock while `remove` drops the gate, the read locks of a snapshot) is a field of the state.
 */
module RegistrySteps {
  import opened Wrappers
  import opened RegistryTypes

  type Tid = nat

  type GateId = nat

  /**
   A gate object.  `epoch` counts its `notify_waiters` calls: a `notified_owned` future is woken by
   every call made after the future was created.
   */
  datatype Gate = Gate(started: bool, epoch: nat)

  datatype RwLock = RwLock(writer: Option<Tid>, readers: set<Tid>)

  const FREE := RwLock(None, {})

  /**
   What a step does with a reader-writer lock.  `Pass` takes the lock and gives it back in the same
   step; the other four keep a guard across steps.
   */
  datatype LockOp = Untouched | PassRead | PassWrite | Take | GiveBack | EnterRead | LeaveRead

  predicate Grants(l: RwLock, op: LockOp) {
    match op
    case PassWrite => l == FREE
    case Take => l == FREE
    case PassRead => l.writer.None?
    case EnterRead => l.writer.None?
    case _ => true
  }

  function Operated(l: RwLock, op: LockOp, t: Tid): RwLock {
    match op
    case Take => RwLock(Some(t), {})
    case GiveBack => FREE
    case EnterRead => l.(readers := l.readers + {t})
    case LeaveRead => l.(readers := l.readers - {t})
    case _ => l
  }

  datatype Origin = Reused | Spawned

  datatype AcquirePc =
    | Counting                                  // attach_requests_total
    | FindingGate                               // entry().or_insert_with()
    | Looking                                   // head of the loop: is there a record?
    | TakingGate                                // check and set `started`
    | Spawning                                  // the closure is running
    | Resetting(result: Option<SessionHandle>)  // clear `started`, wake the waiters
    | Inserting(handle: SessionHandle)          // or_insert_with(), join the record
    | CountingLease(origin: Origin)             // holds the session lock from here ...
    | Issuing(origin: Origin)
    | Recording(origin: Origin, n: nat)         // ... until this step is done
    | DroppingGate                              // the spawn failed
    | Waiting(seen: nat)                        // on the gate's notifier, `seen` is its epoch back then
    | Acquired(origin: Origin, n: nat)
    | Failed

  datatype ReleasePc = TakingLease | Leaving(key: SessionKey) | Released | Unknown

  datatype RemovePc = DroppingSession | DroppingLeases | DroppingGates | Removed

  datatype ForwardPc = FindingLease | FindingSession(key: SessionKey) | Running(key: SessionKey)
    | Touching(key: SessionKey) | Answered | NotFound | Rejected

  datatype ObservePc = ReadingSessions | ReadingLeases | ReadingCounters | Observed

  datatype MarkPc = Marking | MarkDone

  /**
   `gate`, `rounds` (times round the loop) and `spawns` (runs of the closure) describe the history of
   an `acquire_or_spawn` call.  `Forward` is `call_by_lease_id` or `notify_by_lease_id`; `Observe` is
   `snapshot` when it also reads the counters, else `memory_snapshots`.
   */
  datatype Task =
    | Acquire(key: SessionKey, kind: Option<ClientKind>, apc: AcquirePc, gate: GateId, rounds: nat, spawns: nat)
    | Release(leaseId: string, rpc: ReleasePc)
    | Remove(target: SessionKey, dpc: RemovePc)
    | Forward(via: string, fpc: ForwardPc)
    | Observe(counters: bool, opc: ObservePc)
    | Idle(ipc: MarkPc)
    | Mark(marked: SessionKey, notice: Option<Notice>, mpc: MarkPc)

  /** The shared data.  `released` and `dropped` record the lease ids that left the lease map, and how. */
  datatype Store = Store(
    sessions: map<SessionKey, SessionRecord>,
    leases: Leases,
    spawnGates: map<SessionKey, GateId>,
    gates: seq<Gate>,
    counters: Counters,
    leaseSeq: nat,
    idleTtl: nat,
    released: set<string>,
    dropped: set<string>
  )

  datatype State = State(store: Store, sessionsLock: RwLock, leasesLock: RwLock, tasks: seq<Task>)

  /** What the environment decides in a step: the clock, the spawn result, the server's answer. */
  datatype Input = Input(now: nat, spawned: Option<SessionHandle>, answered: bool)

  datatype Event = Event(t: Tid, i: Input)

  predicate AtStart(x: Task) {
    match x
    case Acquire(_, _, pc, gate, rounds, spawns) => pc.Counting? && gate == 0 && rounds == 0 && spawns == 0
    case Release(_, pc) => pc.TakingLease?
    case Remove(_, pc) => pc.DroppingSession?
    case Forward(_, pc) => pc.FindingLease?
    case Observe(_, pc) => pc.ReadingSessions?
    case Idle(pc) => pc.Marking?
    case Mark(_, _, pc) => pc.Marking?
  }

  predicate Finished(x: Task) {
    match x
    case Acquire(_, _, pc, _, _, _) => pc.Acquired? || pc.Failed?
    case Release(_, pc) => pc.Released? || pc.Unknown?
    case Remove(_, pc) => pc.Removed?
    case Forward(_, pc) => pc.Answered? || pc.NotFound? || pc.Rejected?
    case Observe(_, pc) => pc.Observed?
    case Idle(pc) => pc.MarkDone?
    case Mark(_, _, pc) => pc.MarkDone?
  }

  predicate Init(s: State) {
    && s.store == Store(map[], map[], map[], [], NO_COUNTS, 1, s.store.idleTtl, {}, {})
    && s.sessionsLock == FREE && s.leasesLock == FREE
    && forall t :: 0 <= t < |s.tasks| ==> AtStart(s.tasks[t])
  }

  /** A gate id that was never allocated stands for a fresh gate. */
  function GateAt(st: Store, g: GateId): Gate {
    if g < |st.gates| then st.gates[g] else Gate(false, 0)
  }

  /** The next step of each kind of task: the shared data and the stepping task afterwards. */
  datatype Move = Move(store: Store, task: Task)

  function AcquireMove(st: Store, x: Task, i: Input): Move
    requires x.Acquire?
  {
    match x.apc
    case Counting =>
      Move(st.(counters := st.counters.(attach := st.counters.attach + 1)), x.(apc := FindingGate))
    case FindingGate =>
      if x.key in st.spawnGates then
        Move(st, x.(apc := Looking, gate := st.spawnGates[x.key], rounds := 1))
      else
        Move(st.(gates := st.gates + [Gate(false, 0)], spawnGates := st.spawnGates[x.key := |st.gates|]),
             x.(apc := Looking, gate := |st.gates|, rounds := 1))
    case Looking =>
      if x.key in st.sessions then
        Move(st.(sessions := st.sessions[x.key := Joined(st.sessions[x.key], i.now)]), x.(apc := CountingLease(Reused)))
      else
        Move(st, x.(apc := TakingGate))
    case TakingGate =>
      var g := GateAt(st, x.gate);
      if g.started then
        Move(st, x.(apc := Waiting(g.epoch)))
      else
        Move(WithGate(st, x.gate, g.(started := true)), x.(apc := Spawning, spawns := x.spawns + 1))
    case Spawning =>
      Move(st, x.(apc := Resetting(i.spawned)))
    case Resetting(result) =>
      Move(WithGate(st, x.gate, Gate(false, GateAt(st, x.gate).epoch + 1)),
           x.(apc := if result.Some? then Inserting(result.value) else DroppingGate))
    case Inserting(handle) =>
      var r := if x.key in st.sessions then st.sessions[x.key] else NewRecord(handle, i.now);
      Move(st.(sessions := st.sessions[x.key := Joined(r, i.now)]), x.(apc := CountingLease(Spawned)))
    case CountingLease(origin) =>
      var c := st.counters;
      Move(st.(counters := if origin.Reused? then c.(reused := c.reused + 1) else c.(spawned := c.spawned + 1)),
           x.(apc := Issuing(origin)))
    case Issuing(origin) =>
      Move(st.(leaseSeq := st.leaseSeq + 1), x.(apc := Recording(origin, st.leaseSeq)))
    case Recording(origin, n) =>
      Move(st.(leases := st.leases[LeaseName(n) := LeaseRecord(x.key, x.kind)]), x.(apc := Acquired(origin, n)))
    case DroppingGate =>
      Move(st.(spawnGates := st.spawnGates - {x.key}), x.(apc := Failed))
    case Waiting(_) =>
      Move(st, x.(apc := Looking, rounds := x.rounds + 1))
    case _ => Move(st, x)
  }

  function WithGate(st: Store, g: GateId, gate: Gate): Store {
    if g < |st.gates| then st.(gates := st.gates[g := gate]) else st
  }

  function ReleaseMove(st: Store, x: Task, i: Input): Move
    requires x.Release?
  {
    match x.rpc
    case TakingLease =>
      if x.leaseId in st.leases then
        Move(st.(leases := st.leases - {x.leaseId}, released := st.released + {x.leaseId}),
             x.(rpc := Leaving(st.leases[x.leaseId].key)))
      else
        Move(st, x.(rpc := Unknown))
    case Leaving(key) =>
      Move(OnSession(st, key, r => Left(r, i.now)), x.(rpc := Released))
    case _ => Move(st, x)
  }

  /** Apply an update to the record of a key, if there is one. */
  function OnSession(st: Store, k: SessionKey, update: SessionRecord -> SessionRecord): Store {
    if k in st.sessions then st.(sessions := st.sessions[k := update(st.sessions[k])]) else st
  }

  function RemoveMove(st: Store, x: Task): Move
    requires x.Remove?
  {
    match x.dpc
    case DroppingSession =>
      Move(st.(sessions := st.sessions - {x.target}), x.(dpc := DroppingLeases))
    case DroppingLeases =>
      Move(st.(leases := LeasesWithout(st.leases, x.target),
           dropped := st.dropped + LeaseIdsOn(st.leases, x.target)),
           x.(dpc := DroppingGates))
    case DroppingGates =>
      Move(st.(spawnGates := st.spawnGates - {x.target}), x.(dpc := Removed))
    case Removed => Move(st, x)
  }

  function ForwardMove(st: Store, x: Task, i: Input): Move
    requires x.Forward?
  {
    match x.fpc
    case FindingLease =>
      Move(st, x.(fpc := if x.via in st.leases then FindingSession(st.leases[x.via].key) else NotFound))
    case FindingSession(key) =>
      if key !in st.sessions then Move(st, x.(fpc := NotFound))
      else if st.sessions[key].terminating then Move(st, x.(fpc := Rejected))
      else Move(OnSession(st, key, r => Touched(r, i.now)), x.(fpc := Running(key)))
    case Running(key) =>
      Move(st, x.(fpc := if i.answered then Touching(key) else Rejected))
    case Touching(key) =>
      Move(OnSession(st, key, r => Touched(r, i.now)), x.(fpc := Answered))
    case _ => Move(st, x)
  }

  function ObserveMove(st: Store, x: Task): Move
    requires x.Observe?
  {
    match x.opc
    case ReadingSessions => Move(st, x.(opc := ReadingLeases))
    case ReadingLeases => Move(st, x.(opc := if x.counters then ReadingCounters else Observed))
    case _ => Move(st, x.(opc := Observed))
  }

  function MoveOf(st: Store, x: Task, i: Input): Move {
    match x
    case Acquire(_, _, _, _, _, _) => AcquireMove(st, x, i)
    case Release(_, _) => ReleaseMove(st, x, i)
    case Remove(_, _) => RemoveMove(st, x)
    case Forward(_, _) => ForwardMove(st, x, i)
    case Observe(_, _) => ObserveMove(st, x)
    case Idle(_) => Move(st.(sessions := MarkIdle(st.sessions, i.now, st.idleTtl)), x.(ipc := MarkDone))
    case Mark(key, notice, _) => Move(OnSession(st, key, r => Marked(r, notice)), x.(mpc := MarkDone))
  }

  /** What the next step of a task does with the session lock. */
  function SessionsOp(st: Store, x: Task): LockOp {
    match x
    case Acquire(key, _, pc, _, _, _) => (
      match pc
      case Looking => if key in st.sessions then Take else PassWrite
      case Inserting(_) => Take
      case Recording(_, _) => GiveBack
      case _ => Untouched)
    case Release(_, pc) => if pc.Leaving? then PassWrite else Untouched
    case Remove(_, pc) => if pc.DroppingSession? then PassWrite else Untouched
    case Forward(_, pc) => if pc.FindingSession? || pc.Touching? then PassWrite else Untouched
    case Observe(counters, pc) =>
      if pc.ReadingSessions? then EnterRead
      else if pc.ReadingCounters? || (pc.ReadingLeases? && !counters) then LeaveRead
      else Untouched
    case Idle(_) => PassWrite
    case Mark(_, _, _) => PassWrite
  }

  /** What the next step of a task does with the lease lock. */
  function LeasesOp(x: Task): LockOp {
    match x
    case Acquire(_, _, pc, _, _, _) => if pc.Recording? then PassWrite else Untouched
    case Release(_, pc) => if pc.TakingLease? then PassWrite else Untouched
    case Remove(_, pc) => if pc.DroppingLeases? then Take else if pc.DroppingGates? then GiveBack else Untouched
    case Forward(_, pc) => if pc.FindingLease? then PassRead else Untouched
    case Observe(counters, pc) =>
      if pc.ReadingLeases? then (if counters then EnterRead else PassRead)
      else if pc.ReadingCounters? then LeaveRead
      else Untouched
    case _ => Untouched
  }

  /** A waiter goes on once its notifier has been called since it started to wait. */
  predicate Woken(st: Store, x: Task) {
    x.Acquire? && x.apc.Waiting? ==> GateAt(st, x.gate).epoch != x.apc.seen
  }

  predicate Enabled(s: State, t: Tid) {
    && t < |s.tasks|
    && !Finished(s.tasks[t])
    && Woken(s.store, s.tasks[t])
    && Grants(s.sessionsLock, SessionsOp(s.store, s.tasks[t]))
    && Grants(s.leasesLock, LeasesOp(s.tasks[t]))
  }

  /** A spawn that succeeds returns a handle for the key it was given. */
  predicate Fits(x: Task, i: Input) {
    x.Acquire? && i.spawned.Some? ==> i.spawned.value.key == x.key
  }

  predicate Allowed(s: State, e: Event) {
    Enabled(s, e.t) && Fits(s.tasks[e.t], e.i)
  }

  function Next(s: State, e: Event): State
    requires Allowed(s, e)
  {
    var x := s.tasks[e.t];
    var m := MoveOf(s.store, x, e.i);
    State(m.store, Operated(s.sessionsLock, SessionsOp(s.store, x), e.t), Operated(s.leasesLock, LeasesOp(x), e.t),
          s.tasks[e.t := m.task])
  }

  // ----- Runs

  predicate IsRun(s: State, run: seq<Event>)
    decreases |run|
  {
    run != [] ==> Allowed(s, run[0]) && IsRun(Next(s, run[0]), run[1..])
  }

  function After(s: State, run: seq<Event>): State
    requires IsRun(s, run)
    decreases |run|
  {
    if run == [] then s else After(Next(s, run[0]), run[1..])
  }

  // ----- Counting tasks

  /** The groups of tasks that the invariants count. */
  datatype Class =
    | Acquires                       // every acquire_or_spawn call
    | Attached                       // past the attach counter
    | InFlight                       // attached, not yet counted as spawned, reused or failed
    | CountedAs(origin: Origin)      // past the spawned or reused counter
    | Failures
    | Numbered                       // holds a lease number
    | InsertPending                  // ... whose lease is not in the map yet
    | NumberPending                  // counted as spawned or reused, no lease number yet
    | SpawningUnder(g: GateId)
    | NotifiedUnder(g: GateId)       // has woken the waiters of g
    | Joining(k: SessionKey)         // has bumped k's record, lease not in the map yet
    | LeavingFrom(k: SessionKey)     // has taken a lease on k, record not yet decremented

  predicate In(x: Task, c: Class) {
    match c
    case LeavingFrom(k) => x.Release? && x.rpc == Leaving(k)
    case _ => x.Acquire? && InAcquire(x, c)
  }

  predicate HasGate(pc: AcquirePc) {
    !pc.Counting? && !pc.FindingGate?
  }

  predicate HoldsSessions(pc: AcquirePc) {
    pc.CountingLease? || pc.Issuing? || pc.Recording?
  }

  function OriginOf(pc: AcquirePc): Option<Origin> {
    match pc
    case CountingLease(o) => Some(o)
    case Issuing(o) => Some(o)
    case Recording(o, _) => Some(o)
    case Acquired(o, _) => Some(o)
    case _ => None
  }

  /** Has this call run its closure and woken the gate's waiters? */
  predicate HasNotified(pc: AcquirePc) {
    pc.Inserting? || pc.DroppingGate? || pc.Failed? || OriginOf(pc) == Some(Spawned)
  }

  predicate InAcquire(x: Task, c: Class)
    requires x.Acquire?
  {
    var pc := x.apc;
    match c
    case Acquires => true
    case Attached => !pc.Counting?
    case InFlight => !pc.Counting? && !pc.Issuing? && !pc.Recording? && !pc.Acquired? && !pc.Failed?
    case CountedAs(o) => OriginOf(pc) == Some(o) && !pc.CountingLease?
    case Failures => pc.Failed?
    case Numbered => pc.Recording? || pc.Acquired?
    case InsertPending => pc.Recording?
    case NumberPending => pc.Issuing?
    case SpawningUnder(g) => (pc.Spawning? || pc.Resetting?) && x.gate == g
    case NotifiedUnder(g) => HasNotified(pc) && x.gate == g
    case Joining(k) => HoldsSessions(pc) && x.key == k
    case LeavingFrom(_) => false
  }

  function One(b: bool): nat {
    if b then 1 else 0
  }

  function Count(tasks: seq<Task>, c: Class): nat {
    if tasks == [] then 0 else Count(tasks[1..], c) + One(In(tasks[0], c))
  }

  lemma {:induction false} CountUpdate(tasks: seq<Task>, t: Tid, x: Task, c: Class)
    requires t < |tasks|
    ensures Count(tasks[t := x], c) == Count(tasks, c) - One(In(tasks[t], c)) + One(In(x, c))
  {
    if t == 0 {
      assert tasks[0 := x][1..] == tasks[1..];
    } else {
      assert tasks[t := x][1..] == tasks[1..][t - 1 := x];
      CountUpdate(tasks[1..], t - 1, x, c);
    }
  }

  lemma {:induction false} CountMember(tasks: seq<Task>, t: Tid, c: Class)
    requires t < |tasks| && In(tasks[t], c)
    ensures Count(tasks, c) >= 1
  {
    if t > 0 {
      CountMember(tasks[1..], t - 1, c);
    }
  }

  /** A positive count has a witness. */
  lemma {:induction false} CountWitness(tasks: seq<Task>, c: Class) returns (t: Tid)
    requires Count(tasks, c) >= 1
    ensures t < |tasks| && In(tasks[t], c)
  {
    if In(tasks[0], c) {
      t := 0;
    } else {
      var u := CountWitness(tasks[1..], c);
      t := u + 1;
    }
  }

  lemma {:induction false} CountPair(tasks: seq<Task>, t: Tid, u: Tid, c: Class)
    requires t < u < |tasks| && In(tasks[t], c) && In(tasks[u], c)
    ensures Count(tasks, c) >= 2
  {
    if t == 0 {
      CountMember(tasks[1..], u - 1, c);
    } else {
      CountPair(tasks[1..], t - 1, u - 1, c);
    }
  }

  lemma {:induction false} CountNone(tasks: seq<Task>, c: Class)
    requires forall t :: 0 <= t < |tasks| ==> !In(tasks[t], c)
    ensures Count(tasks, c) == 0
  {
    if tasks != [] {
      CountNone(tasks[1..], c);
    }
  }

  /** A class inside another has no more members, and fewer if some task is only in the larger one. */
  lemma {:induction false} CountSubset(tasks: seq<Task>, small: Class, large: Class)
    requires forall t :: 0 <= t < |tasks| && In(tasks[t], small) ==> In(tasks[t], large)
    ensures Count(tasks, small) <= Count(tasks, large)
    ensures (exists t :: 0 <= t < |tasks| && In(tasks[t], large) && !In(tasks[t], small)) ==>
              Count(tasks, small) < Count(tasks, large)
  {
    if tasks != [] {
      var rest := tasks[1..];
      CountSubset(rest, small, large);
      if t :| 0 <= t < |tasks| && In(tasks[t], large) && !In(tasks[t], small) {
        assert t > 0 ==> rest[t - 1] == tasks[t];
      }
    }
  }

  /** Every attached call is in flight, was counted once, or failed. */
  lemma {:induction false} AttachedSplit(tasks: seq<Task>)
    ensures Count(tasks, Attached) ==
            Count(tasks, InFlight) + Count(tasks, CountedAs(Spawned)) + Count(tasks, CountedAs(Reused)) +
            Count(tasks, Failures)
    ensures Count(tasks, CountedAs(Spawned)) + Count(tasks, CountedAs(Reused)) ==
            Count(tasks, Numbered) + Count(tasks, NumberPending)
  {
    if tasks != [] {
      AttachedSplit(tasks[1..]);
      AttachedSplitOne(tasks[0]);
    }
  }

  lemma AttachedSplitOne(x: Task)
    ensures One(In(x, Attached)) ==
            One(In(x, InFlight)) + One(In(x, CountedAs(Spawned))) + One(In(x, CountedAs(Reused))) + One(In(x, Failures))
    ensures One(In(x, CountedAs(Spawned))) + One(In(x, CountedAs(Reused))) ==
            One(In(x, Numbered)) + One(In(x, NumberPending))
  {
    if x.Acquire? && OriginOf(x.apc).Some? {
      var origin := OriginOf(x.apc).value;
      assert origin.Reused? || origin.Spawned?;
    }
  }
}
