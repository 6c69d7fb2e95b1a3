/** Counters, lease ids and reference counts in every interleaving of `RegistrySteps`. */
module RegistryAccounting {
  import opened RegistryTypes
  import opened RegistrySteps
  import Decimal

  // ----- Counters

  ghost predicate CountersOk(st: Store, tasks: seq<Task>) {
    && st.counters.attach == Count(tasks, Attached)
    && st.counters.spawned == Count(tasks, CountedAs(Spawned))
    && st.counters.reused == Count(tasks, CountedAs(Reused))
    && st.leaseSeq == Count(tasks, Numbered) + 1
  }

  lemma CounterMove(st: Store, x: Task, i: Input)
    requires !Finished(x)
    ensures var m := MoveOf(st, x, i);
            && m.store.counters.attach == st.counters.attach - One(In(x, Attached)) + One(In(m.task, Attached))
            && m.store.leaseSeq == st.leaseSeq - One(In(x, Numbered)) + One(In(m.task, Numbered))
  {
  }

  lemma OriginCounterMove(st: Store, x: Task, i: Input)
    requires !Finished(x)
    ensures var m := MoveOf(st, x, i);
            && m.store.counters.spawned ==
               st.counters.spawned - One(In(x, CountedAs(Spawned))) + One(In(m.task, CountedAs(Spawned)))
            && m.store.counters.reused ==
               st.counters.reused - One(In(x, CountedAs(Reused))) + One(In(m.task, CountedAs(Reused)))
  {
  }

  lemma CountersStep(s: State, e: Event)
    requires CountersOk(s.store, s.tasks) && Allowed(s, e)
    ensures CountersOk(Next(s, e).store, Next(s, e).tasks)
  {
    var x := s.tasks[e.t];
    var y := MoveOf(s.store, x, e.i).task;
    CounterMove(s.store, x, e.i);
    OriginCounterMove(s.store, x, e.i);
    CountUpdate(s.tasks, e.t, y, Attached);
    CountUpdate(s.tasks, e.t, y, CountedAs(Spawned));
    CountUpdate(s.tasks, e.t, y, CountedAs(Reused));
    CountUpdate(s.tasks, e.t, y, Numbered);
  }

  // ----- Lease ids

  predicate HasNumber(x: Task) {
    x.Acquire? && (x.apc.Recording? || x.apc.Acquired?)
  }

  function Number(x: Task): nat
    requires HasNumber(x)
  {
    x.apc.n
  }

  /** `id` names the lease that this finished call returned. */
  predicate IssuedTo(x: Task, id: string) {
    x.Acquire? && x.apc.Acquired? && LeaseName(x.apc.n) == id
  }

  ghost predicate NumbersOk(st: Store, tasks: seq<Task>) {
    && (forall t :: 0 <= t < |tasks| && HasNumber(tasks[t]) ==> 1 <= Number(tasks[t]) < st.leaseSeq)
    && (forall t, u :: 0 <= t < u < |tasks| && HasNumber(tasks[t]) && HasNumber(tasks[u]) ==>
                         Number(tasks[t]) != Number(tasks[u]))
  }

  /** Every id ever in the lease map. */
  function EverIssued(st: Store): set<string> {
    st.leases.Keys + st.released + st.dropped
  }

  ghost predicate IdsOk(st: Store, tasks: seq<Task>) {
    && (forall id :: id in EverIssued(st) ==> exists t :: 0 <= t < |tasks| && IssuedTo(tasks[t], id))
    && HistoryApart(st)
    && HistorySize(st) + Count(tasks, InsertPending) == Count(tasks, Numbered)
  }

  lemma NumberMove(st: Store, x: Task, i: Input)
    requires !Finished(x)
    ensures var m := MoveOf(st, x, i);
            && HasNumber(m.task) == (HasNumber(x) || (x.Acquire? && x.apc.Issuing?))
            && (HasNumber(m.task) ==> Number(m.task) == if HasNumber(x) then Number(x) else st.leaseSeq)
            && m.store.leaseSeq == st.leaseSeq + One(x.Acquire? && x.apc.Issuing?)
  {
  }

  lemma NumbersStep(s: State, e: Event)
    requires NumbersOk(s.store, s.tasks) && s.store.leaseSeq >= 1 && Allowed(s, e)
    ensures NumbersOk(Next(s, e).store, Next(s, e).tasks)
  {
    NumberMove(s.store, s.tasks[e.t], e.i);
  }

  predicate Inserts(x: Task) {
    x.Acquire? && x.apc.Recording?
  }

  predicate Takes(st: Store, x: Task) {
    x.Release? && x.rpc.TakingLease? && x.leaseId in st.leases
  }

  predicate DropsLeases(x: Task) {
    x.Remove? && x.dpc.DroppingLeases?
  }

  /** How a step of `x` changes the lease map and its history. */
  predicate LeaseFlow(st: Store, x: Task, st': Store) {
    if Inserts(x) then
      && st'.leases == st.leases[LeaseName(x.apc.n) := LeaseRecord(x.key, x.kind)]
      && st'.released == st.released && st'.dropped == st.dropped
    else if Takes(st, x) then
      && st'.leases == st.leases - {x.leaseId}
      && st'.released == st.released + {x.leaseId} && st'.dropped == st.dropped
    else if DropsLeases(x) then
      && st'.leases == LeasesWithout(st.leases, x.target)
      && st'.released == st.released && st'.dropped == st.dropped + LeaseIdsOn(st.leases, x.target)
    else
      st'.leases == st.leases && st'.released == st.released && st'.dropped == st.dropped
  }

  lemma LeaseMove(st: Store, x: Task, i: Input)
    requires !Finished(x)
    ensures LeaseFlow(st, x, MoveOf(st, x, i).store)
  {
  }

  lemma InsertedIdIsIssued(st: Store, x: Task, i: Input)
    requires Inserts(x)
    ensures IssuedTo(MoveOf(st, x, i).task, LeaseName(x.apc.n))
  {
  }

  /** With at most 2^64 calls in the run, the id a call is about to insert was never in the map. */
  lemma InsertedIdIsNew(st: Store, tasks: seq<Task>, t: Tid)
    requires CountersOk(st, tasks) && NumbersOk(st, tasks) && IdsOk(st, tasks)
    requires Count(tasks, Acquires) <= Decimal.TWO_TO_THE_64
    requires t < |tasks| && tasks[t].Acquire? && tasks[t].apc.Recording?
    ensures LeaseName(tasks[t].apc.n) !in EverIssued(st)
  {
    var id := LeaseName(tasks[t].apc.n);
    CountSubset(tasks, Numbered, Acquires);
    assert HasNumber(tasks[t]);
    if id in EverIssued(st) {
      var u :| 0 <= u < |tasks| && IssuedTo(tasks[u], id);
      assert HasNumber(tasks[u]) && (u < t || t < u);
      LeaseNamesDistinct(Number(tasks[t]), Number(tasks[u]));
      assert false;
    }
  }

  ghost predicate HistoryApart(st: Store) {
    st.leases.Keys !! st.released && st.leases.Keys !! st.dropped && st.released !! st.dropped
  }

  function HistorySize(st: Store): nat {
    |st.leases.Keys| + |st.released| + |st.dropped|
  }

  /** Moving part of one set into another keeps three sets apart, their union and their total size. */
  lemma PartMoves(from: set<string>, to: set<string>, other: set<string>, part: set<string>)
    requires from !! to && from !! other && to !! other && part <= from
    ensures from - part !! to + part && from - part !! other && to + part !! other
    ensures (from - part) + (to + part) + other == from + to + other
    ensures (from - part) + other + (to + part) == from + other + to
    ensures |from - part| + |to + part| == |from| + |to|
  {
    assert |from - part| == |from| - |part|;
    assert |to + part| == |to| + |part|;
  }

  lemma InsertFlow(st: Store, x: Task, st': Store)
    requires LeaseFlow(st, x, st') && HistoryApart(st) && Inserts(x)
    requires LeaseName(x.apc.n) !in EverIssued(st)
    ensures HistoryApart(st')
    ensures EverIssued(st') == EverIssued(st) + {LeaseName(x.apc.n)}
    ensures HistorySize(st') == HistorySize(st) + 1
  {
    OneMore(st.leases.Keys, st.released, st.dropped, LeaseName(x.apc.n));
    assert st'.leases.Keys == st.leases.Keys + {LeaseName(x.apc.n)};
  }

  lemma OneMore(to: set<string>, a: set<string>, b: set<string>, id: string)
    requires to !! a && to !! b && id !in to + a + b
    ensures to + {id} !! a && to + {id} !! b
    ensures (to + {id}) + a + b == (to + a + b) + {id}
    ensures |to + {id}| == |to| + 1
  {
  }

  lemma TakeFlow(st: Store, x: Task, st': Store)
    requires LeaseFlow(st, x, st') && HistoryApart(st) && Takes(st, x)
    ensures HistoryApart(st')
    ensures EverIssued(st') == EverIssued(st)
    ensures HistorySize(st') == HistorySize(st)
  {
    PartMoves(st.leases.Keys, st.released, st.dropped, {x.leaseId});
    assert st'.leases.Keys == st.leases.Keys - {x.leaseId};
  }

  lemma DropFlow(st: Store, x: Task, st': Store)
    requires LeaseFlow(st, x, st') && HistoryApart(st) && DropsLeases(x)
    ensures HistoryApart(st')
    ensures EverIssued(st') == EverIssued(st)
    ensures HistorySize(st') == HistorySize(st)
  {
    RetainKeys(st.leases, x.target);
    PartMoves(st.leases.Keys, st.dropped, st.released, LeaseIdsOn(st.leases, x.target));
  }

  lemma OutFlow(st: Store, x: Task, st': Store)
    requires LeaseFlow(st, x, st') && HistoryApart(st) && !Inserts(x)
    ensures HistoryApart(st')
    ensures EverIssued(st') == EverIssued(st)
    ensures HistorySize(st') == HistorySize(st)
  {
    if Takes(st, x) {
      TakeFlow(st, x, st');
    } else if DropsLeases(x) {
      DropFlow(st, x, st');
    }
  }

  /** Ids move from the lease map to the history; only an insertion adds one. */
  lemma HistoryFlow(st: Store, x: Task, st': Store)
    requires LeaseFlow(st, x, st') && HistoryApart(st)
    requires Inserts(x) ==> LeaseName(x.apc.n) !in EverIssued(st)
    ensures HistoryApart(st')
    ensures EverIssued(st') == EverIssued(st) + if Inserts(x) then {LeaseName(x.apc.n)} else {}
    ensures HistorySize(st') == HistorySize(st) + One(Inserts(x))
  {
    if Inserts(x) {
      InsertFlow(st, x, st');
    } else {
      OutFlow(st, x, st');
    }
  }

  lemma OwnersKept(st: Store, tasks: seq<Task>, t: Tid, y: Task, st': Store)
    requires t < |tasks| && !Finished(tasks[t])
    requires forall id :: id in EverIssued(st) ==> exists u :: 0 <= u < |tasks| && IssuedTo(tasks[u], id)
    requires EverIssued(st') == EverIssued(st) + if Inserts(tasks[t]) then {LeaseName(tasks[t].apc.n)} else {}
    requires Inserts(tasks[t]) ==> IssuedTo(y, LeaseName(tasks[t].apc.n))
    ensures var tasks' := tasks[t := y];
            forall id :: id in EverIssued(st') ==> exists u :: 0 <= u < |tasks'| && IssuedTo(tasks'[u], id)
  {
    var tasks' := tasks[t := y];
    forall id | id in EverIssued(st') ensures exists u :: 0 <= u < |tasks'| && IssuedTo(tasks'[u], id) {
      if id in EverIssued(st) {
        var u :| 0 <= u < |tasks| && IssuedTo(tasks[u], id);
        assert u != t;
        assert IssuedTo(tasks'[u], id);
      } else {
        assert IssuedTo(tasks'[t], id);
      }
    }
  }

  lemma IdsStep(s: State, e: Event)
    requires CountersOk(s.store, s.tasks) && NumbersOk(s.store, s.tasks) && IdsOk(s.store, s.tasks)
    requires Count(s.tasks, Acquires) <= Decimal.TWO_TO_THE_64
    requires Allowed(s, e)
    ensures IdsOk(Next(s, e).store, Next(s, e).tasks)
  {
    var x, m := s.tasks[e.t], MoveOf(s.store, s.tasks[e.t], e.i);
    if Inserts(x) {
      InsertedIdIsNew(s.store, s.tasks, e.t);
      InsertedIdIsIssued(s.store, x, e.i);
    }
    LeaseMove(s.store, x, e.i);
    HistoryFlow(s.store, x, m.store);
    IdCountsMove(s, e);
    OwnersKept(s.store, s.tasks, e.t, m.task, m.store);
  }

  lemma IdCountsMove(s: State, e: Event)
    requires Allowed(s, e)
    ensures Count(Next(s, e).tasks, Numbered) - Count(Next(s, e).tasks, InsertPending) ==
            Count(s.tasks, Numbered) - Count(s.tasks, InsertPending) +
            One(s.tasks[e.t].Acquire? && s.tasks[e.t].apc.Recording?)
  {
    var x := s.tasks[e.t];
    var y := MoveOf(s.store, x, e.i).task;
    CountUpdate(s.tasks, e.t, y, Numbered);
    CountUpdate(s.tasks, e.t, y, InsertPending);
  }

  // ----- Releases

  /** This release found its lease. */
  predicate Took(x: Task) {
    x.Release? && (x.rpc.Leaving? || x.rpc.Released?)
  }

  /** Each lease id is taken, and so decremented, by at most one release. */
  ghost predicate ReleasesOk(st: Store, tasks: seq<Task>) {
    && (forall t :: 0 <= t < |tasks| && Took(tasks[t]) ==> tasks[t].leaseId in st.released)
    && (forall t, u :: 0 <= t < u < |tasks| && Took(tasks[t]) && Took(tasks[u]) ==>
                         tasks[t].leaseId != tasks[u].leaseId)
  }

  lemma ReleaseMoves(st: Store, x: Task, i: Input)
    requires !Finished(x)
    ensures var m := MoveOf(st, x, i);
            && (Took(m.task) ==> x.Release? && m.task.leaseId == x.leaseId)
            && (Took(m.task) && !Took(x) ==> x.leaseId in st.leases && x.leaseId in m.store.released)
            && st.released <= m.store.released
  {
  }

  lemma ReleasesStep(s: State, e: Event)
    requires IdsOk(s.store, s.tasks) && ReleasesOk(s.store, s.tasks) && Allowed(s, e)
    ensures ReleasesOk(Next(s, e).store, Next(s, e).tasks)
  {
    ReleaseMoves(s.store, s.tasks[e.t], e.i);
  }

  // ----- Reference counts

  function RefCountOf(st: Store, k: SessionKey): nat {
    if k in st.sessions then st.sessions[k].refCount else 0
  }

  /** How far the reference count of `k` exceeds what accounts for it. */
  ghost function Surplus(st: Store, tasks: seq<Task>, k: SessionKey): int {
    RefCountOf(st, k) - LeasesOn(st.leases, k) - Count(tasks, Joining(k)) - Count(tasks, LeavingFrom(k))
  }

  ghost predicate RefCountOk(st: Store, tasks: seq<Task>, k: SessionKey) {
    Surplus(st, tasks, k) == 0
  }

  predicate Removes(x: Task, k: SessionKey) {
    x.Remove? && x.target == k
  }

  /** Nobody calls `remove(k)` in this run. */
  predicate NeverRemoved(tasks: seq<Task>, k: SessionKey) {
    forall t :: 0 <= t < |tasks| ==> !Removes(tasks[t], k)
  }

  /** No call of `remove(k)` has passed its first lock region yet. */
  predicate NoRemovalBegun(tasks: seq<Task>, k: SessionKey) {
    forall t :: 0 <= t < |tasks| && Removes(tasks[t], k) ==> tasks[t].dpc.DroppingSession?
  }

  lemma RecordMove(st: Store, x: Task, i: Input, k: SessionKey)
    requires !Finished(x)
    requires !Removes(x, k)
    requires In(x, LeavingFrom(k)) ==> RefCountOf(st, k) > 0
    ensures var m := MoveOf(st, x, i);
            RefCountOf(m.store, k) ==
            RefCountOf(st, k) + One(!In(x, Joining(k)) && In(m.task, Joining(k))) - One(In(x, LeavingFrom(k)))
  {
    if x.Acquire? {
      assert MoveOf(st, x, i) == AcquireMove(st, x, i);
    }
  }

  lemma LeaseCountFlow(st: Store, x: Task, st': Store, k: SessionKey)
    requires LeaseFlow(st, x, st') && !Removes(x, k)
    requires Inserts(x) ==> LeaseName(x.apc.n) !in st.leases
    ensures LeasesOn(st'.leases, k) ==
            LeasesOn(st.leases, k) + One(Inserts(x) && x.key == k)
            - One(Takes(st, x) && st.leases[x.leaseId].key == k)
  {
    if Inserts(x) {
      LeasesAfterInsert(st.leases, LeaseName(x.apc.n), LeaseRecord(x.key, x.kind), k);
    } else if Takes(st, x) {
      LeasesAfterRemove(st.leases, x.leaseId, k);
    } else if DropsLeases(x) {
      LeasesAfterRetain(st.leases, x.target, k);
    }
  }

  lemma MemberMove(st: Store, x: Task, i: Input, k: SessionKey)
    requires !Finished(x)
    ensures var y := MoveOf(st, x, i).task;
            && (In(x, Joining(k)) && !In(y, Joining(k)) <==> Inserts(x) && x.key == k)
            && (In(y, LeavingFrom(k)) <==> Takes(st, x) && st.leases[x.leaseId].key == k)
  {
  }

  lemma LeaverHasReference(st: Store, tasks: seq<Task>, t: Tid, k: SessionKey)
    requires Surplus(st, tasks, k) >= 0 && t < |tasks| && In(tasks[t], LeavingFrom(k))
    ensures RefCountOf(st, k) > 0
  {
    CountMember(tasks, t, LeavingFrom(k));
  }

  lemma LeaseCountStep(s: State, e: Event, k: SessionKey)
    requires CountersOk(s.store, s.tasks) && NumbersOk(s.store, s.tasks) && IdsOk(s.store, s.tasks)
    requires Count(s.tasks, Acquires) <= Decimal.TWO_TO_THE_64
    requires Allowed(s, e) && !Removes(s.tasks[e.t], k)
    ensures var x, st := s.tasks[e.t], s.store;
            LeasesOn(Next(s, e).store.leases, k) ==
            LeasesOn(st.leases, k) + One(Inserts(x) && x.key == k)
            - One(Takes(st, x) && st.leases[x.leaseId].key == k)
  {
    var x := s.tasks[e.t];
    if Inserts(x) {
      InsertedIdIsNew(s.store, s.tasks, e.t);
    }
    LeaseMove(s.store, x, e.i);
    LeaseCountFlow(s.store, x, MoveOf(s.store, x, e.i).store, k);
  }

  /** Tasks come to and go from `k` with the leases that they insert and take. */
  lemma MemberCountStep(s: State, e: Event, k: SessionKey)
    requires Allowed(s, e)
    ensures var x, y, st := s.tasks[e.t], MoveOf(s.store, s.tasks[e.t], e.i).task, s.store;
            && Count(Next(s, e).tasks, Joining(k)) ==
               Count(s.tasks, Joining(k)) + One(!In(x, Joining(k)) && In(y, Joining(k)))
               - One(Inserts(x) && x.key == k)
            && Count(Next(s, e).tasks, LeavingFrom(k)) ==
               Count(s.tasks, LeavingFrom(k)) - One(In(x, LeavingFrom(k)))
               + One(Takes(st, x) && st.leases[x.leaseId].key == k)
  {
    var x := s.tasks[e.t];
    var y := MoveOf(s.store, x, e.i).task;
    MemberMove(s.store, x, e.i, k);
    CountUpdate(s.tasks, e.t, y, Joining(k));
    CountUpdate(s.tasks, e.t, y, LeavingFrom(k));
  }

  /** Only a removal of `k` can change its surplus. */
  lemma RefCountStep(s: State, e: Event, k: SessionKey)
    requires CountersOk(s.store, s.tasks) && NumbersOk(s.store, s.tasks) && IdsOk(s.store, s.tasks)
    requires Count(s.tasks, Acquires) <= Decimal.TWO_TO_THE_64
    requires Surplus(s.store, s.tasks, k) >= 0 && Allowed(s, e) && !Removes(s.tasks[e.t], k)
    ensures Surplus(Next(s, e).store, Next(s, e).tasks, k) == Surplus(s.store, s.tasks, k)
  {
    var x := s.tasks[e.t];
    if In(x, LeavingFrom(k)) {
      LeaverHasReference(s.store, s.tasks, e.t, k);
    }
    RecordMove(s.store, x, e.i, k);
    LeaseCountStep(s, e, k);
    MemberCountStep(s, e, k);
  }

  /** A removal that has begun stays so, and only its own step begins one. */
  lemma RemovalStep(st: Store, x: Task, i: Input, k: SessionKey)
    requires !Finished(x)
    ensures Removes(MoveOf(st, x, i).task, k) == Removes(x, k)
    ensures Removes(x, k) ==> !MoveOf(st, x, i).task.dpc.DroppingSession?
  {
  }
}
