/** No deadlock, bounded waiting and termination of `RegistrySteps`, for any number of tasks. */
module RegistryProgress {
  import opened RegistrySteps
  import opened RegistryLocks

  // ----- No stuck state

  /** The holder of the lease lock can always go on: it waits for nothing that is held across steps. */
  lemma LeaseHolderEnabled(s: State) returns (t: Tid)
    requires LocksOk(s) && s.leasesLock != FREE
    ensures Enabled(s, t)
  {
    if s.leasesLock.writer.Some? {
      t := s.leasesLock.writer.value;
      assert WritesLeases(s.tasks[t]);
    } else {
      t :| t in s.leasesLock.readers;
      assert ReadsLeases(s.tasks[t]);
    }
  }

  /** The holder of the session lock can go on once the lease lock is free. */
  lemma SessionHolderEnabled(s: State) returns (t: Tid)
    requires LocksOk(s) && s.leasesLock == FREE && s.sessionsLock != FREE
    ensures Enabled(s, t)
  {
    if s.sessionsLock.writer.Some? {
      t := s.sessionsLock.writer.value;
      assert WritesSessions(s.tasks[t]);
    } else {
      t :| t in s.sessionsLock.readers;
      assert ReadsSessions(s.tasks[t]);
      assert !ReadsLeases(s.tasks[t]);
    }
  }

  /** A waiter that has not been woken waits for a task whose spawn is still to finish. */
  lemma WaiterHasSpawner(s: State, t: Tid) returns (u: Tid)
    requires GatesOk(s.store, s.tasks) && t < |s.tasks|
    requires s.tasks[t].Acquire? && s.tasks[t].apc.Waiting? && !Woken(s.store, s.tasks[t])
    ensures u < |s.tasks| && In(s.tasks[u], SpawningUnder(s.tasks[t].gate))
  {
    var g := s.tasks[t].gate;
    assert TaskGateOk(s.store, s.tasks[t]) && GateOk(s.store, s.tasks, g);
    u := CountWitness(s.tasks, SpawningUnder(g));
  }

  lemma NotStuck(s: State, t: Tid) returns (u: Tid)
    requires LocksOk(s) && GatesOk(s.store, s.tasks)
    requires t < |s.tasks| && !Finished(s.tasks[t])
    ensures Enabled(s, u)
  {
    if s.leasesLock != FREE {
      u := LeaseHolderEnabled(s);
    } else if s.sessionsLock != FREE {
      u := SessionHolderEnabled(s);
    } else if !Woken(s.store, s.tasks[t]) {
      u := WaiterHasSpawner(s, t);
      assert Grants(FREE, SessionsOp(s.store, s.tasks[u])) && Grants(FREE, LeasesOp(s.tasks[u]));
    } else {
      u := t;
      assert Grants(FREE, SessionsOp(s.store, s.tasks[u])) && Grants(FREE, LeasesOp(s.tasks[u]));
    }
  }

  ghost predicate AllFinished(s: State) {
    forall t :: 0 <= t < |s.tasks| ==> Finished(s.tasks[t])
  }

  /** In every reachable state with an unfinished task, some task can take a step. */
  lemma NoStuckState(s0: State, run: seq<Event>)
    requires Init(s0) && IsRun(s0, run)
    ensures AllFinished(After(s0, run)) || exists u :: Enabled(After(s0, run), u)
  {
    StartOk(s0);
    RunKeepsLocksAndGates(s0, run);
    var s := After(s0, run);
    if t :| 0 <= t < |s.tasks| && !Finished(s.tasks[t]) {
      var u := NotStuck(s, t);
    }
  }

  // ----- Bounded waiting

  /** Each call has gone round its loop at most as often as there are calls, and spawned at most once. */
  lemma RoundsBounded(s: State, t: Tid)
    requires GatesOk(s.store, s.tasks) && t < |s.tasks| && s.tasks[t].Acquire?
    ensures s.tasks[t].rounds <= Count(s.tasks, Acquires)
    ensures s.tasks[t].spawns <= 1
  {
    var x := s.tasks[t];
    assert TaskGateOk(s.store, x) && GateOk(s.store, s.tasks, x.gate);
    assert In(x, Acquires) && In(x, NotifiedUnder(x.gate)) == HasNotified(x.apc);
    CountSubset(s.tasks, NotifiedUnder(x.gate), Acquires);
  }

  lemma BoundedWaiting(s0: State, run: seq<Event>, t: Tid)
    requires Init(s0) && IsRun(s0, run) && t < |After(s0, run).tasks| && After(s0, run).tasks[t].Acquire?
    ensures After(s0, run).tasks[t].rounds <= Count(s0.tasks, Acquires)
    ensures After(s0, run).tasks[t].spawns <= 1
  {
    StartOk(s0);
    RunKeepsLocksAndGates(s0, run);
    RoundsBounded(After(s0, run), t);
    RunKeepsAcquires(s0, run);
  }

  lemma MoveKeepsKind(st: Store, x: Task, i: Input)
    ensures In(MoveOf(st, x, i).task, Acquires) == In(x, Acquires)
  {
  }

  lemma {:induction false} RunKeepsAcquires(s: State, run: seq<Event>)
    requires IsRun(s, run)
    ensures Count(After(s, run).tasks, Acquires) == Count(s.tasks, Acquires)
    ensures |After(s, run).tasks| == |s.tasks|
    decreases |run|
  {
    if run != [] {
      var s' := Next(s, run[0]);
      MoveKeepsKind(s.store, s.tasks[run[0].t], run[0].i);
      CountUpdate(s.tasks, run[0].t, s'.tasks[run[0].t], Acquires);
      RunKeepsAcquires(s', run[1..]);
    }
  }

  // ----- A spawn that never ends

  lemma SilentSpawnerStep(s: State, e: Event, u: Tid, g: GateId)
    requires GatesOk(s.store, s.tasks) && Allowed(s, e) && u != e.t
    requires u < |s.tasks| && In(s.tasks[u], SpawningUnder(g))
    ensures GateAt(Next(s, e).store, g).epoch == GateAt(s.store, g).epoch
  {
    var x := s.tasks[e.t];
    assert TaskGateOk(s.store, x) && GateOk(s.store, s.tasks, g);
    if In(x, SpawningUnder(g)) {
      CountPair(s.tasks, if u < e.t then u else e.t, if u < e.t then e.t else u, SpawningUnder(g));
    }
    EpochMove(s.store, x, e.i, g);
  }

  /** While a spawner takes no step, whoever waits at its gate takes none either, whatever all others do. */
  lemma {:induction false} SilentSpawnerBlocks(s: State, run: seq<Event>, u: Tid, w: Tid)
    requires GatesOk(s.store, s.tasks) && IsRun(s, run) && (forall j :: 0 <= j < |run| ==> run[j].t != u)
    requires w < |s.tasks| && u < |s.tasks| && !Woken(s.store, s.tasks[w])
    requires In(s.tasks[u], SpawningUnder(s.tasks[w].gate))
    ensures |After(s, run).tasks| == |s.tasks| && After(s, run).tasks[w] == s.tasks[w]
    ensures !Enabled(After(s, run), w)
    decreases |run|
  {
    if run != [] {
      var e, s' := run[0], Next(s, run[0]);
      assert forall j :: 0 <= j < |run[1..]| ==> run[1..][j] == run[j + 1];
      SilentSpawnerStep(s, e, u, s.tasks[w].gate);
      GatesStep(s, e);
      SilentSpawnerBlocks(s', run[1..], u, w);
    }
  }

  // ----- A measure for the whole system

  /** Steps left to a task before it finishes or goes round its loop again. */
  function Rank(x: Task): nat {
    match x
    case Acquire(_, _, pc, _, _, _) => (
      match pc
      case Counting => 11
      case FindingGate => 10
      case Looking => 8
      case TakingGate => 7
      case Spawning => 6
      case Resetting(_) => 5
      case Inserting(_) => 4
      case CountingLease(_) => 3
      case Issuing(_) => 2
      case Recording(_, _) => 1
      case DroppingGate => 1
      case Waiting(_) => 0
      case Acquired(_, _) => 0
      case Failed => 0)
    case Release(_, pc) => if pc.TakingLease? then 2 else if pc.Leaving? then 1 else 0
    case Remove(_, pc) =>
      if pc.DroppingSession? then 3 else if pc.DroppingLeases? then 2 else if pc.DroppingGates? then 1 else 0
    case Forward(_, pc) =>
      if pc.FindingLease? then 4 else if pc.FindingSession? then 3
      else if pc.Running? then 2 else if pc.Touching? then 1 else 0
    case Observe(_, pc) =>
      if pc.ReadingSessions? then 3 else if pc.ReadingLeases? then 2 else if pc.ReadingCounters? then 1 else 0
    case Idle(pc) => One(pc.Marking?)
    case Mark(_, _, pc) => One(pc.Marking?)
  }

  const ROUND := 9

  /** `n` bounds the rounds of every call. */
  function Work(x: Task, n: nat): int {
    Rank(x) + if x.Acquire? then ROUND * (n - x.rounds) else 0
  }

  function TotalWork(tasks: seq<Task>, n: nat): int {
    if tasks == [] then 0 else Work(tasks[0], n) + TotalWork(tasks[1..], n)
  }

  lemma {:induction false} TotalWorkUpdate(tasks: seq<Task>, t: Tid, x: Task, n: nat)
    requires t < |tasks|
    ensures TotalWork(tasks[t := x], n) == TotalWork(tasks, n) - Work(tasks[t], n) + Work(x, n)
  {
    if t == 0 {
      assert tasks[0 := x][1..] == tasks[1..];
    } else {
      assert tasks[t := x][1..] == tasks[1..][t - 1 := x];
      TotalWorkUpdate(tasks[1..], t - 1, x, n);
    }
  }

  lemma {:induction false} TotalWorkBounds(tasks: seq<Task>, n: nat)
    requires forall t :: 0 <= t < |tasks| && tasks[t].Acquire? ==> tasks[t].rounds <= n
    ensures 0 <= TotalWork(tasks, n) <= |tasks| * (ROUND * n + 11)
  {
    var most := ROUND * n + 11;
    if tasks != [] {
      TotalWorkBounds(tasks[1..], n);
      assert Rank(tasks[0]) <= 11;
      assert 0 <= Work(tasks[0], n) <= most;
      assert |tasks| * most == |tasks[1..]| * most + most;
    }
  }

  /** Every step, a wake-up included, uses up some work. */
  lemma StepDoesWork(s: State, e: Event, n: nat)
    requires Allowed(s, e)
    requires s.tasks[e.t].Acquire? && s.tasks[e.t].apc.FindingGate? ==> s.tasks[e.t].rounds == 0
    ensures TotalWork(Next(s, e).tasks, n) < TotalWork(s.tasks, n)
  {
    var x := s.tasks[e.t];
    var y := MoveOf(s.store, x, e.i).task;
    assert Work(y, n) < Work(x, n);
    TotalWorkUpdate(s.tasks, e.t, y, n);
  }

  predicate FirstRound(x: Task) {
    x.Acquire? && (x.apc.Counting? || x.apc.FindingGate?) ==> x.rounds == 0
  }

  lemma {:induction false} RunDoesWork(s: State, run: seq<Event>, n: nat)
    requires IsRun(s, run)
    requires forall t :: 0 <= t < |s.tasks| ==> FirstRound(s.tasks[t])
    ensures |run| + TotalWork(After(s, run).tasks, n) <= TotalWork(s.tasks, n)
    decreases |run|
  {
    if run != [] {
      var s' := Next(s, run[0]);
      assert FirstRound(s.tasks[run[0].t]);
      StepDoesWork(s, run[0], n);
      forall t | 0 <= t < |s'.tasks| ensures FirstRound(s'.tasks[t]) {
        assert FirstRound(s.tasks[t]);
      }
      RunDoesWork(s', run[1..], n);
    }
  }

  /**
   No run is longer than (number of tasks) * (9 * number of calls + 11) steps.  With `NoStuckState`:
   under every schedule in which each spawn and each answer of a server arrives, every task finishes.
   */
  lemma RunsAreShort(s0: State, run: seq<Event>)
    requires Init(s0) && IsRun(s0, run)
    ensures |run| <= |s0.tasks| * (ROUND * Count(s0.tasks, Acquires) + 11)
  {
    var n := Count(s0.tasks, Acquires);
    var s := After(s0, run);
    StartOk(s0);
    RunKeepsLocksAndGates(s0, run);
    RunKeepsAcquires(s0, run);
    forall t | 0 <= t < |s.tasks| && s.tasks[t].Acquire? ensures s.tasks[t].rounds <= n {
      RoundsBounded(s, t);
    }
    TotalWorkBounds(s.tasks, n);
    TotalWorkBounds(s0.tasks, n);
    RunDoesWork(s0, run, n);
  }
}
