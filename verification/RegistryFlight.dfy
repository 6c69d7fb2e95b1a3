/** When spawns are single flight not only per gate but per key. */
module RegistryFlight {
  import opened RegistryTypes
  import opened RegistrySteps
  import opened RegistryAccounting
  import opened RegistryTheorems

  /** The closure of this attach is running for `k`, or its gate is about to be reset. */
  predicate Spawns(x: Task, k: SessionKey) {
    Attaches(x, k) && (x.apc.Spawning? || x.apc.Resetting?)
  }

  ghost predicate SingleFlight(s: State, k: SessionKey) {
    forall t: Tid, u: Tid :: t < |s.tasks| && u < |s.tasks| && Spawns(s.tasks[t], k) && Spawns(s.tasks[u], k) ==> t == u
  }

  /** This call has taken the gate of `k` off the map: an attach whose spawn failed, or a removal. */
  predicate TookGateOff(x: Task, k: SessionKey) {
    (Attaches(x, k) && x.apc.Failed?) || (Removes(x, k) && x.dpc.Removed?)
  }

  ghost predicate GateInPlace(tasks: seq<Task>, k: SessionKey) {
    forall t :: 0 <= t < |tasks| ==> !TookGateOff(tasks[t], k)
  }

  /** Until somebody takes it off the map, all attaches of `k` share its gate. */
  ghost predicate GateShared(st: Store, tasks: seq<Task>, k: SessionKey) {
    forall t :: 0 <= t < |tasks| && Attaches(tasks[t], k) && HasGate(tasks[t].apc) ==>
      k in st.spawnGates && st.spawnGates[k] == tasks[t].gate
  }

  lemma GateMove(st: Store, x: Task, i: Input, k: SessionKey)
    requires !Finished(x)
    ensures var m := MoveOf(st, x, i);
            && Attaches(m.task, k) == Attaches(x, k) && Removes(m.task, k) == Removes(x, k)
            && (!TookGateOff(m.task, k) && k in st.spawnGates ==>
                  k in m.store.spawnGates && m.store.spawnGates[k] == st.spawnGates[k])
            && (Attaches(m.task, k) && HasGate(m.task.apc) ==>
                  if HasGate(x.apc) then m.task.gate == x.gate
                  else k in m.store.spawnGates && m.store.spawnGates[k] == m.task.gate)
  {
    if x.Acquire? {
      assert MoveOf(st, x, i) == AcquireMove(st, x, i);
    }
  }

  lemma GateSharedStep(s: State, e: Event, k: SessionKey)
    requires Allowed(s, e) && GateShared(s.store, s.tasks, k) && GateInPlace(Next(s, e).tasks, k)
    ensures GateShared(Next(s, e).store, Next(s, e).tasks, k)
  {
    var s' := Next(s, e);
    GateMove(s.store, s.tasks[e.t], e.i, k);
    assert !TookGateOff(s'.tasks[e.t], k);
  }

  /** Who took the gate off once has done so for good. */
  lemma {:induction false} GateInPlaceBefore(s: State, run: seq<Event>, k: SessionKey)
    requires IsRun(s, run) && GateInPlace(After(s, run).tasks, k)
    ensures GateInPlace(s.tasks, k)
    decreases |run|
  {
    if run != [] {
      var s' := Next(s, run[0]);
      GateInPlaceBefore(s', run[1..], k);
      forall t | 0 <= t < |s.tasks| ensures !TookGateOff(s.tasks[t], k) {
        assert !TookGateOff(s'.tasks[t], k);
      }
    }
  }

  lemma {:induction false} RunKeepsGateShared(s: State, run: seq<Event>, k: SessionKey)
    requires IsRun(s, run) && GateShared(s.store, s.tasks, k) && GateInPlace(After(s, run).tasks, k)
    ensures GateShared(After(s, run).store, After(s, run).tasks, k)
    decreases |run|
  {
    if run != [] {
      GateInPlaceBefore(Next(s, run[0]), run[1..], k);
      GateSharedStep(s, run[0], k);
      RunKeepsGateShared(Next(s, run[0]), run[1..], k);
    }
  }

  /** As long as no spawn for `k` has failed and no removal of `k` is through, at most one spawn for it is in flight. */
  lemma OneSpawnPerKey(s0: State, run: seq<Event>, k: SessionKey)
    requires Reachable(s0, run) && GateInPlace(After(s0, run).tasks, k)
    ensures SingleFlight(After(s0, run), k)
  {
    var s := After(s0, run);
    RunKeepsGateShared(s0, run, k);
    forall t: Tid, u: Tid | t < |s.tasks| && u < |s.tasks| && Spawns(s.tasks[t], k) && Spawns(s.tasks[u], k)
      ensures t == u
    {
      var g := s.tasks[t].gate;
      GateExclusion(s0, run, g);
      assert In(s.tasks[t], SpawningUnder(g)) && In(s.tasks[u], SpawningUnder(g));
    }
  }

  lemma {:induction false} RolesStay(s: State, run: seq<Event>, k: SessionKey)
    requires IsRun(s, run)
    ensures |After(s, run).tasks| == |s.tasks|
    ensures forall t :: 0 <= t < |s.tasks| ==>
              && Attaches(After(s, run).tasks[t], k) == Attaches(s.tasks[t], k)
              && Removes(After(s, run).tasks[t], k) == Removes(s.tasks[t], k)
    decreases |run|
  {
    if run != [] {
      GateMove(s.store, s.tasks[run[0].t], run[0].i, k);
      RolesStay(Next(s, run[0]), run[1..], k);
    }
  }
}
