/**
 Whole method calls of the session registry, as functions on the shared data of `RegistrySteps`:
 what a call does when no other call runs at the same time.
 */
module RegistryCalls {
  import opened Wrappers
  import opened RegistryTypes
  import opened RegistrySteps
  import opened RegistryAccounting
  import Decimal

  // ----- acquire_or_spawn

  function EnterGate(st: Store, key: SessionKey): Store {
    var counted := st.(counters := st.counters.(attach := st.counters.attach + 1));
    if key in st.spawnGates then counted
    else counted.(gates := st.gates + [Gate(false, 0)], spawnGates := st.spawnGates[key := |st.gates|])
  }

  function IssueLease(st: Store, key: SessionKey, kind: Option<ClientKind>): Store {
    st.(leases := st.leases[LeaseName(st.leaseSeq) := LeaseRecord(key, kind)], leaseSeq := st.leaseSeq + 1)
  }

  function Reuse(st: Store, key: SessionKey, kind: Option<ClientKind>, now: nat): Store
    requires key in st.sessions
  {
    IssueLease(st.(sessions := st.sessions[key := Joined(st.sessions[key], now)],
               counters := st.counters.(reused := st.counters.reused + 1)), key, kind)
  }

  function JoinNew(st: Store, key: SessionKey, kind: Option<ClientKind>, handle: SessionHandle, now: nat): Store {
    IssueLease(st.(sessions := st.sessions[key := Joined(NewRecord(handle, now), now)],
               counters := st.counters.(spawned := st.counters.spawned + 1)), key, kind)
  }

  function Woke(st: Store, g: GateId): Store {
    WithGate(st, g, Gate(false, GateAt(st, g).epoch + 1))
  }

  function SpawnFor(
    st: Store, key: SessionKey, kind: Option<ClientKind>, spawned: Option<SessionHandle>, now: nat
  ): Store
    requires key in st.spawnGates && key !in st.sessions
  {
    var woken := Woke(st, st.spawnGates[key]);
    match spawned
    case Some(handle) => JoinNew(woken, key, kind, handle, now)
    case None => woken.(spawnGates := st.spawnGates - {key})
  }

  function AcquireCall(
    st: Store, key: SessionKey, kind: Option<ClientKind>, spawned: Option<SessionHandle>, now: nat
  ): Store {
    var entered := EnterGate(st, key);
    if key in st.sessions then Reuse(entered, key, kind, now) else SpawnFor(entered, key, kind, spawned, now)
  }

  predicate AcquireSucceeds(st: Store, key: SessionKey, spawned: Option<SessionHandle>) {
    key in st.sessions || spawned.Some?
  }

  // ----- The other calls

  function ReleaseCall(st: Store, id: string, now: nat): Store {
    if id in st.leases then
      OnSession(st.(leases := st.leases - {id}, released := st.released + {id}), st.leases[id].key, r => Left(r, now))
    else st
  }

  function RemoveCall(st: Store, key: SessionKey): Store {
    st.(sessions := st.sessions - {key}, leases := LeasesWithout(st.leases, key),
    dropped := st.dropped + LeaseIdsOn(st.leases, key), spawnGates := st.spawnGates - {key})
  }

  function IdleKeys(st: Store, now: nat): set<SessionKey> {
    set k | k in st.sessions && IsIdle(st.sessions[k], now, st.idleTtl)
  }

  function IdleCall(st: Store, now: nat): Store {
    st.(sessions := MarkIdle(st.sessions, now, st.idleTtl))
  }

  function MarkCall(st: Store, key: SessionKey, notice: Option<Notice>): Store {
    OnSession(st, key, r => Marked(r, notice))
  }

  datatype Forwarded = NoLease | SessionEnding(notice: Option<Notice>) | ServerFailed | Answer

  datatype Reached = Missing | Ending(notice: Option<Notice>) | Ready(key: SessionKey)

  /** The part of a call or notify before anything is sent to the server. */
  function ReachCall(st: Store, id: string, now: nat): (Store, Reached) {
    if id !in st.leases || st.leases[id].key !in st.sessions then (st, Missing)
    else
      var key := st.leases[id].key;
      if st.sessions[key].terminating then (st, Ending(st.sessions[key].notice))
      else (TouchCall(st, key, now), Ready(key))
  }

  function TouchCall(st: Store, key: SessionKey, now: nat): Store {
    OnSession(st, key, r => Touched(r, now))
  }

  /** `answeredAt` is when the server's answer arrived, if it did. */
  function ForwardCall(st: Store, id: string, now: nat, answeredAt: Option<nat>): (Store, Forwarded) {
    var (touched, reached) := ReachCall(st, id, now);
    match reached
    case Missing => (touched, NoLease)
    case Ending(notice) => (touched, SessionEnding(notice))
    case Ready(key) =>
      match answeredAt
      case None => (touched, ServerFailed)
      case Some(later) => (TouchCall(touched, key, later), Answer)
  }

  // ----- The balance kept between calls

  /** No spawn is running. */
  ghost predicate Calm(st: Store) {
    && (forall k :: k in st.spawnGates ==> st.spawnGates[k] < |st.gates|)
    && (forall g: GateId :: !GateAt(st, g).started)
  }

  ghost predicate Numbered(st: Store, id: string, low: nat) {
    exists n: nat :: low <= n < st.leaseSeq && id == LeaseName(n)
  }

  /** Every session counts its leases exactly, and no lease lacks a session. */
  ghost predicate Conserved(st: Store) {
    && (forall k :: k in st.sessions ==> st.sessions[k].refCount == LeasesOn(st.leases, k))
    && (forall id :: id in st.leases ==> st.leases[id].key in st.sessions)
    && (forall k :: k in st.sessions ==> st.sessions[k].handle.key == k)
  }

  ghost predicate IdsKnown(st: Store) {
    && st.leaseSeq >= 1
    && (forall id :: id in EverIssued(st) ==> Numbered(st, id, 1))
    && HistoryApart(st)
    && HistorySize(st) == st.leaseSeq - 1 == st.counters.spawned + st.counters.reused
  }

  ghost predicate Balanced(st: Store) {
    Calm(st) && Conserved(st) && IdsKnown(st)
  }

  function EmptyStore(ttl: nat): Store {
    Store(map[], map[], map[], [], NO_COUNTS, 1, ttl, {}, {})
  }

  lemma EmptyIsBalanced(ttl: nat)
    ensures Balanced(EmptyStore(ttl))
  {
  }

  /** Up to its 2^64th call, `next_lease_id` returns an id that was never used. */
  lemma NextIdIsNew(st: Store)
    requires IdsKnown(st) && st.leaseSeq <= Decimal.TWO_TO_THE_64
    ensures LeaseName(st.leaseSeq) !in EverIssued(st)
  {
    var id := LeaseName(st.leaseSeq);
    if id in EverIssued(st) {
      var n: nat :| 1 <= n < st.leaseSeq && id == LeaseName(n);
      LeaseNamesDistinct(n, st.leaseSeq);
      assert false;
    }
  }

  lemma IssueKeepsIds(before: Store, joined: Store, key: SessionKey, kind: Option<ClientKind>)
    requires IdsKnown(before) && before.leaseSeq <= Decimal.TWO_TO_THE_64
    requires joined.leases == before.leases && joined.leaseSeq == before.leaseSeq
    requires joined.released == before.released && joined.dropped == before.dropped
    requires joined.counters.spawned + joined.counters.reused == before.counters.spawned + before.counters.reused + 1
    ensures IdsKnown(IssueLease(joined, key, kind))
  {
    NextIdIsNew(before);
    var n, after := before.leaseSeq, IssueLease(joined, key, kind);
    InsertFlow(before, Acquire(key, kind, Recording(Reused, n), 0, 0, 0), after);
    OneMoreNumbered(before, after);
  }

  lemma OneMoreNumbered(before: Store, after: Store)
    requires before.leaseSeq >= 1 && forall id :: id in EverIssued(before) ==> Numbered(before, id, 1)
    requires after.leaseSeq == before.leaseSeq + 1
    requires EverIssued(after) == EverIssued(before) + {LeaseName(before.leaseSeq)}
    ensures forall id :: id in EverIssued(after) ==> Numbered(after, id, 1)
  {
    forall id | id in EverIssued(after) ensures Numbered(after, id, 1) {
      if id in EverIssued(before) {
        assert Numbered(before, id, 1);
        var n: nat :| 1 <= n < before.leaseSeq && id == LeaseName(n);
      }
    }
  }

  lemma IssueConserves(before: Store, joined: Store, key: SessionKey, kind: Option<ClientKind>)
    requires Conserved(before) && LeaseName(before.leaseSeq) !in before.leases
    requires joined.leases == before.leases && joined.leaseSeq == before.leaseSeq
    requires key in joined.sessions && joined.sessions == before.sessions[key := joined.sessions[key]]
    requires joined.sessions[key].handle.key == key
    requires joined.sessions[key].refCount == RefCountOf(before, key) + 1
    ensures Conserved(IssueLease(joined, key, kind))
  {
    var id, after := LeaseName(before.leaseSeq), IssueLease(joined, key, kind);
    forall k | k in after.sessions ensures after.sessions[k].refCount == LeasesOn(after.leases, k) {
      LeasesAfterInsert(before.leases, id, LeaseRecord(key, kind), k);
      if k !in before.sessions {
        assert LeaseIdsOn(before.leases, k) == {};
      }
    }
  }

  lemma SameSessionsConserved(st: Store, after: Store)
    requires Conserved(st) && after.sessions == st.sessions && after.leases == st.leases
    ensures Conserved(after)
  {
  }

  lemma EnterGateIsCalm(st: Store, key: SessionKey)
    requires Calm(st)
    ensures Calm(EnterGate(st, key)) && key in EnterGate(st, key).spawnGates
  {
    var entered := EnterGate(st, key);
    forall g: GateId ensures !GateAt(entered, g).started {
      assert !GateAt(st, g).started;
    }
  }

  lemma EnterGateKeepsBalance(st: Store, key: SessionKey)
    requires Balanced(st)
    ensures Balanced(EnterGate(st, key)) && key in EnterGate(st, key).spawnGates
    ensures EnterGate(st, key).sessions == st.sessions && EnterGate(st, key).leaseSeq == st.leaseSeq
  {
    var entered := EnterGate(st, key);
    EnterGateIsCalm(st, key);
    SameSessionsConserved(st, entered);
    SameLeasesSameIds(st, entered);
  }

  lemma ReuseKeepsBalance(st: Store, key: SessionKey, kind: Option<ClientKind>, now: nat)
    requires Balanced(st) && st.leaseSeq <= Decimal.TWO_TO_THE_64 && key in st.sessions
    ensures Balanced(Reuse(st, key, kind, now))
  {
    var joined := st.(sessions := st.sessions[key := Joined(st.sessions[key], now)],
                  counters := st.counters.(reused := st.counters.reused + 1));
    assert Reuse(st, key, kind, now) == IssueLease(joined, key, kind);
    IssueKeepsBalance(st, joined, key, kind);
  }

  lemma IssueKeepsBalance(st: Store, joined: Store, key: SessionKey, kind: Option<ClientKind>)
    requires Balanced(st) && st.leaseSeq <= Decimal.TWO_TO_THE_64
    requires joined == st.(sessions := joined.sessions, counters := joined.counters)
    requires joined.counters.spawned + joined.counters.reused == st.counters.spawned + st.counters.reused + 1
    requires key in joined.sessions && joined.sessions == st.sessions[key := joined.sessions[key]]
    requires joined.sessions[key].handle.key == key
    requires joined.sessions[key].refCount == RefCountOf(st, key) + 1
    ensures Balanced(IssueLease(joined, key, kind))
  {
    NextIdIsNew(st);
    IssueKeepsIds(st, joined, key, kind);
    IssueConserves(st, joined, key, kind);
    CalmKept(st, IssueLease(joined, key, kind));
  }

  lemma CalmKept(st: Store, after: Store)
    requires Calm(st) && after.gates == st.gates
    requires forall k :: k in after.spawnGates ==> k in st.spawnGates && after.spawnGates[k] == st.spawnGates[k]
    ensures Calm(after)
  {
    forall g: GateId ensures !GateAt(after, g).started {
      assert !GateAt(st, g).started;
    }
  }

  lemma WokeKeepsBalance(st: Store, g: GateId)
    requires Balanced(st)
    ensures Balanced(Woke(st, g)) && Woke(st, g).sessions == st.sessions && Woke(st, g).leaseSeq == st.leaseSeq
    ensures Woke(st, g).spawnGates == st.spawnGates
  {
    var after := Woke(st, g);
    WokeIsCalm(st, g);
    SameSessionsConserved(st, after);
    SameLeasesSameIds(st, after);
  }

  lemma WokeIsCalm(st: Store, g: GateId)
    requires Calm(st)
    ensures Calm(Woke(st, g))
  {
    var after := Woke(st, g);
    forall h: GateId ensures !GateAt(after, h).started {
      assert !GateAt(st, h).started;
    }
  }

  lemma JoinNewKeepsBalance(st: Store, key: SessionKey, kind: Option<ClientKind>, handle: SessionHandle, now: nat)
    requires Balanced(st) && st.leaseSeq <= Decimal.TWO_TO_THE_64
    requires key !in st.sessions && handle.key == key
    ensures Balanced(JoinNew(st, key, kind, handle, now))
  {
    var joined := st.(sessions := st.sessions[key := Joined(NewRecord(handle, now), now)],
                  counters := st.counters.(spawned := st.counters.spawned + 1));
    assert JoinNew(st, key, kind, handle, now) == IssueLease(joined, key, kind);
    IssueKeepsBalance(st, joined, key, kind);
  }

  lemma SpawnForKeepsBalance(
    st: Store, key: SessionKey, kind: Option<ClientKind>, spawned: Option<SessionHandle>, now: nat
  )
    requires Balanced(st) && (spawned.Some? ==> st.leaseSeq <= Decimal.TWO_TO_THE_64)
    requires key in st.spawnGates && key !in st.sessions
    requires spawned.Some? ==> spawned.value.key == key
    ensures Balanced(SpawnFor(st, key, kind, spawned, now))
  {
    var woken := Woke(st, st.spawnGates[key]);
    WokeKeepsBalance(st, st.spawnGates[key]);
    match spawned
    case Some(handle) =>
      JoinNewKeepsBalance(woken, key, kind, handle, now);
    case None =>
      var after := SpawnFor(st, key, kind, None, now);
      CalmKept(woken, after);
      SameSessionsConserved(woken, after);
      SameLeasesSameIds(woken, after);
  }

  lemma SameLeasesSameIds(st: Store, after: Store)
    requires IdsKnown(st) && after.leases == st.leases && after.released == st.released && after.dropped == st.dropped
    requires after.leaseSeq == st.leaseSeq
    requires after.counters.spawned + after.counters.reused == st.counters.spawned + st.counters.reused
    ensures IdsKnown(after)
  {
    forall id | id in EverIssued(after) ensures Numbered(after, id, 1) {
      assert Numbered(st, id, 1);
    }
  }

  /** Attaching keeps the balance, as long as lease ids do not wrap round. */
  lemma AcquireKeepsBalance(
    st: Store, key: SessionKey, kind: Option<ClientKind>, spawned: Option<SessionHandle>, now: nat
  )
    requires Balanced(st) && (AcquireSucceeds(st, key, spawned) ==> st.leaseSeq <= Decimal.TWO_TO_THE_64)
    requires spawned.Some? ==> spawned.value.key == key
    ensures Balanced(AcquireCall(st, key, kind, spawned, now))
  {
    EnterGateKeepsBalance(st, key);
    var entered := EnterGate(st, key);
    if key in st.sessions {
      ReuseKeepsBalance(entered, key, kind, now);
    } else {
      SpawnForKeepsBalance(entered, key, kind, spawned, now);
    }
  }

  lemma OutFlowKeepsIds(st: Store, x: Task, after: Store)
    requires IdsKnown(st) && LeaseFlow(st, x, after) && !Inserts(x)
    requires after.leaseSeq == st.leaseSeq && after.counters == st.counters
    ensures IdsKnown(after)
  {
    OutFlow(st, x, after);
    forall id | id in EverIssued(after) ensures Numbered(after, id, 1) {
      assert Numbered(st, id, 1);
    }
  }

  lemma ReleaseKeepsBalance(st: Store, id: string, now: nat)
    requires Balanced(st)
    ensures Balanced(ReleaseCall(st, id, now))
  {
    if id in st.leases {
      var after := ReleaseCall(st, id, now);
      OutFlowKeepsIds(st, Release(id, TakingLease), after);
      CalmKept(st, after);
      ReleaseConserves(st, id, now);
    }
  }

  lemma ReleaseConserves(st: Store, id: string, now: nat)
    requires Conserved(st) && id in st.leases
    ensures Conserved(ReleaseCall(st, id, now))
  {
    var after := ReleaseCall(st, id, now);
    forall k | k in after.sessions ensures after.sessions[k].refCount == LeasesOn(after.leases, k) {
      LeasesAfterRemove(st.leases, id, k);
    }
  }

  /** A release answers with the number of leases that the session still has. */
  lemma ReleaseReturnsLeasesLeft(st: Store, id: string, now: nat)
    requires Balanced(st) && id in st.leases
    ensures var key, after := st.leases[id].key, ReleaseCall(st, id, now);
            && key in after.sessions
            && after.sessions[key].refCount == LeasesOn(after.leases, key) == LeasesOn(st.leases, key) - 1
  {
    ReleaseKeepsBalance(st, id, now);
    LeasesAfterRemove(st.leases, id, st.leases[id].key);
  }

  lemma RemoveKeepsBalance(st: Store, key: SessionKey)
    requires Balanced(st)
    ensures Balanced(RemoveCall(st, key))
  {
    var after := RemoveCall(st, key);
    OutFlowKeepsIds(st, Remove(key, DroppingLeases), after);
    CalmKept(st, after);
    RemoveConserves(st, key);
  }

  lemma RemoveConserves(st: Store, key: SessionKey)
    requires Conserved(st)
    ensures Conserved(RemoveCall(st, key))
  {
    var after := RemoveCall(st, key);
    forall k | k in after.sessions ensures after.sessions[k].refCount == LeasesOn(after.leases, k) {
      LeasesAfterRetain(st.leases, key, k);
    }
  }

  /** Calls that change no count, no lease and no gate keep the balance. */
  lemma QuietCallKeepsBalance(st: Store, after: Store)
    requires Balanced(st)
    requires after == st.(sessions := after.sessions) && after.sessions.Keys == st.sessions.Keys
    requires forall k :: k in st.sessions ==>
                           && after.sessions[k].refCount == st.sessions[k].refCount
                           && after.sessions[k].handle == st.sessions[k].handle
    ensures Balanced(after)
  {
    SameLeasesSameIds(st, after);
    CalmKept(st, after);
  }

  lemma IdleKeepsBalance(st: Store, now: nat)
    requires Balanced(st)
    ensures Balanced(IdleCall(st, now))
  {
    QuietCallKeepsBalance(st, IdleCall(st, now));
  }

  lemma MarkKeepsBalance(st: Store, key: SessionKey, notice: Option<Notice>)
    requires Balanced(st)
    ensures Balanced(MarkCall(st, key, notice))
  {
    QuietCallKeepsBalance(st, MarkCall(st, key, notice));
  }

  lemma TouchKeepsBalance(st: Store, key: SessionKey, now: nat)
    requires Balanced(st)
    ensures Balanced(TouchCall(st, key, now))
  {
    QuietCallKeepsBalance(st, TouchCall(st, key, now));
  }

  lemma ReachKeepsBalance(st: Store, id: string, now: nat)
    requires Balanced(st)
    ensures Balanced(ReachCall(st, id, now).0)
  {
    if ReachCall(st, id, now).1.Ready? {
      TouchKeepsBalance(st, st.leases[id].key, now);
    }
  }

  lemma ForwardKeepsBalance(st: Store, id: string, now: nat, answeredAt: Option<nat>)
    requires Balanced(st)
    ensures Balanced(ForwardCall(st, id, now, answeredAt).0)
  {
    var (touched, reached) := ReachCall(st, id, now);
    ReachKeepsBalance(st, id, now);
    if reached.Ready? && answeredAt.Some? {
      TouchKeepsBalance(touched, reached.key, answeredAt.value);
    }
  }

  lemma CountingKeepsBalance(st: Store, after: Store)
    requires Balanced(st) && after == st.(counters := after.counters)
    requires after.counters.spawned == st.counters.spawned && after.counters.reused == st.counters.reused
    ensures Balanced(after)
  {
    SameLeasesSameIds(st, after);
    CalmKept(st, after);
  }

  // ----- Runs of whole calls

  datatype Call =
    | Attach(key: SessionKey, kind: Option<ClientKind>, spawned: Option<SessionHandle>, now: nat)
    | Detach(id: string, now: nat)
    | Discard(key: SessionKey)
    | MarkIdles(now: nat)
    | MarkOne(key: SessionKey, notice: Option<Notice>)
    | Send(id: string, now: nat, answeredAt: Option<nat>)
    | Refresh(key: SessionKey, now: nat)
    | CountIdleGc
    | CountMemoryEviction

  predicate CallFits(c: Call) {
    c.Attach? && c.spawned.Some? ==> c.spawned.value.key == c.key
  }

  function Do(st: Store, c: Call): Store {
    match c
    case Attach(key, kind, spawned, now) => AcquireCall(st, key, kind, spawned, now)
    case Detach(id, now) => ReleaseCall(st, id, now)
    case Discard(key) => RemoveCall(st, key)
    case MarkIdles(now) => IdleCall(st, now)
    case MarkOne(key, notice) => MarkCall(st, key, notice)
    case Send(id, now, answeredAt) => ForwardCall(st, id, now, answeredAt).0
    case Refresh(key, now) => TouchCall(st, key, now)
    case CountIdleGc => st.(counters := st.counters.(gcIdle := st.counters.gcIdle + 1))
    case CountMemoryEviction => st.(counters := st.counters.(evictedMemory := st.counters.evictedMemory + 1))
  }

  function DoAll(st: Store, calls: seq<Call>): Store
    decreases |calls|
  {
    if calls == [] then st else DoAll(Do(st, calls[0]), calls[1..])
  }

  /** Between whole calls no spawn runs, whatever the counts. */
  lemma CallKeepsCalm(st: Store, c: Call)
    requires Calm(st)
    ensures Calm(Do(st, c))
  {
    var after := Do(st, c);
    if c.Attach? {
      EnterGateIsCalm(st, c.key);
      var entered := EnterGate(st, c.key);
      if c.key in st.sessions {
        CalmKept(entered, after);
      } else {
        WokeIsCalm(entered, entered.spawnGates[c.key]);
        CalmKept(Woke(entered, entered.spawnGates[c.key]), after);
      }
    } else {
      CalmKept(st, after);
    }
  }

  lemma CallKeepsBalance(st: Store, c: Call)
    requires Balanced(st) && CallFits(c)
    requires Do(st, c).leaseSeq <= Decimal.TWO_TO_THE_64 + 1
    ensures Balanced(Do(st, c))
  {
    SeqGrowsSlowly(st, c);
    match c
    case Attach(key, kind, spawned, now) => AcquireKeepsBalance(st, key, kind, spawned, now);
    case Detach(id, now) => ReleaseKeepsBalance(st, id, now);
    case Discard(key) => RemoveKeepsBalance(st, key);
    case MarkIdles(now) => IdleKeepsBalance(st, now);
    case MarkOne(key, notice) => MarkKeepsBalance(st, key, notice);
    case Send(id, now, answeredAt) => ForwardKeepsBalance(st, id, now, answeredAt);
    case Refresh(key, now) => TouchKeepsBalance(st, key, now);
    case CountIdleGc => CountingKeepsBalance(st, Do(st, c));
    case CountMemoryEviction => CountingKeepsBalance(st, Do(st, c));
  }

  lemma SeqGrowsSlowly(st: Store, c: Call)
    ensures Do(st, c).leaseSeq == st.leaseSeq + One(c.Attach? && AcquireSucceeds(st, c.key, c.spawned))
  {
  }

  lemma {:induction false} SeqNeverFalls(st: Store, calls: seq<Call>)
    ensures st.leaseSeq <= DoAll(st, calls).leaseSeq
    decreases |calls|
  {
    if calls != [] {
      SeqGrowsSlowly(st, calls[0]);
      SeqNeverFalls(Do(st, calls[0]), calls[1..]);
    }
  }

  /**
   Lease conservation: over any run of whole calls that issues at most 2^64 leases, every session's
   reference count is the number of live leases on its key and every lease has a session.
   */
  lemma {:induction false} LeasesAreConserved(st: Store, calls: seq<Call>)
    requires Balanced(st) && (forall c :: c in calls ==> CallFits(c))
    requires DoAll(st, calls).leaseSeq <= Decimal.TWO_TO_THE_64 + 1
    ensures Balanced(DoAll(st, calls))
    decreases |calls|
  {
    if calls != [] {
      SeqNeverFalls(Do(st, calls[0]), calls[1..]);
      CallKeepsBalance(st, calls[0]);
      LeasesAreConserved(Do(st, calls[0]), calls[1..]);
    }
  }

  /** The same from the start of the daemon. */
  lemma RegistryIsBalanced(ttl: nat, calls: seq<Call>)
    requires forall c :: c in calls ==> CallFits(c)
    requires DoAll(EmptyStore(ttl), calls).leaseSeq <= Decimal.TWO_TO_THE_64 + 1
    ensures Balanced(DoAll(EmptyStore(ttl), calls))
  {
    EmptyIsBalanced(ttl);
    LeasesAreConserved(EmptyStore(ttl), calls);
  }

  // ----- One task among others

  lemma {:induction false} DoAllConcat(st: Store, a: seq<Call>, b: seq<Call>)
    ensures DoAll(st, a + b) == DoAll(DoAll(st, a), b)
    decreases |a|
  {
    if a == [] {
      assert a + b == b;
    } else {
      assert (a + b)[1..] == a[1..] + b;
      DoAllConcat(Do(st, a[0]), a[1..], b);
    }
  }

  lemma DoAllSnoc(st: Store, calls: seq<Call>, c: Call)
    ensures DoAll(st, calls + [c]) == Do(DoAll(st, calls), c)
  {
    DoAllConcat(st, calls, [c]);
    assert [c][1..] == [];
  }

  /** What other tasks call before call number `j` of a task; nothing if the list is too short. */
  function Window(windows: seq<seq<Call>>, j: nat): seq<Call> {
    if j < |windows| then windows[j] else []
  }

  /** The calls of one task, with other tasks' calls in between. */
  function Amid(own: seq<Call>, windows: seq<seq<Call>>): seq<Call> {
    if own == [] then []
    else
      var n := |own| - 1;
      Amid(own[..n], windows) + Window(windows, n) + [own[n]]
  }

  lemma AmidStep(st: Store, own: seq<Call>, c: Call, windows: seq<seq<Call>>)
    ensures DoAll(st, Amid(own + [c], windows)) ==
            Do(DoAll(DoAll(st, Amid(own, windows)), Window(windows, |own|)), c)
  {
    assert (own + [c])[..|own|] == own;
    var before := Amid(own, windows) + Window(windows, |own|);
    DoAllConcat(st, Amid(own, windows), Window(windows, |own|));
    DoAllSnoc(st, before, c);
  }

  ghost predicate NoWindows(windows: seq<seq<Call>>) {
    forall w :: w in windows ==> w == []
  }

  lemma {:induction false} AmidNothing(own: seq<Call>, windows: seq<seq<Call>>)
    requires NoWindows(windows)
    ensures Amid(own, windows) == own
  {
    if own != [] {
      var n := |own| - 1;
      AmidNothing(own[..n], windows);
      assert n < |windows| ==> windows[n] in windows;
      assert own == own[..n] + [own[n]];
    }
  }

  lemma {:induction false} AmidPrefix(own: seq<Call>, windows: seq<seq<Call>>) returns (rest: seq<Call>)
    requires own != []
    ensures Amid(own, windows) == Window(windows, 0) + rest
  {
    var n := |own| - 1;
    if n == 0 {
      assert own[..0] == [];
      rest := [own[0]];
    } else {
      var front := AmidPrefix(own[..n], windows);
      rest := front + Window(windows, n) + [own[n]];
    }
  }

  lemma {:induction false} AmidMembers(own: seq<Call>, windows: seq<seq<Call>>, c: Call)
    ensures c in Amid(own, windows) <==> c in own || exists j :: 0 <= j < |own| && c in Window(windows, j)
  {
    if own != [] {
      var n := |own| - 1;
      AmidMembers(own[..n], windows, c);
      assert own == own[..n] + [own[n]];
    }
  }

  ghost predicate AllFit(own: seq<Call>, windows: seq<seq<Call>>) {
    (forall c :: c in own ==> CallFits(c)) && (forall j, c :: 0 <= j < |own| && c in Window(windows, j) ==> CallFits(c))
  }

  /** A task that makes whole calls keeps the balance, whatever whole calls others make in between. */
  lemma AmidKeepsBalance(st: Store, own: seq<Call>, windows: seq<seq<Call>>)
    requires Balanced(st) && AllFit(own, windows)
    requires DoAll(st, Amid(own, windows)).leaseSeq <= Decimal.TWO_TO_THE_64 + 1
    ensures Balanced(DoAll(st, Amid(own, windows)))
  {
    forall c | c in Amid(own, windows) ensures CallFits(c) {
      AmidMembers(own, windows, c);
    }
    LeasesAreConserved(st, Amid(own, windows));
  }

  lemma {:induction false} CallsKeepCalm(st: Store, calls: seq<Call>)
    requires Calm(st)
    ensures Calm(DoAll(st, calls))
    decreases |calls|
  {
    if calls != [] {
      CallKeepsCalm(st, calls[0]);
      CallsKeepCalm(Do(st, calls[0]), calls[1..]);
    }
  }

  // ----- The life of a lease

  /** This call ends the lease `id` on `key`. */
  predicate Ends(c: Call, id: string, key: SessionKey) {
    c == Discard(key) || (c.Detach? && c.id == id)
  }

  lemma AcquireAddsOneLease(
    st: Store, key: SessionKey, kind: Option<ClientKind>, spawned: Option<SessionHandle>, now: nat
  )
    ensures var after := AcquireCall(st, key, kind, spawned, now);
            if AcquireSucceeds(st, key, spawned)
            then after.leases == st.leases[LeaseName(st.leaseSeq) := LeaseRecord(key, kind)] && key in after.sessions
            else after.leases == st.leases
  {
  }

  lemma LeaseStep(st: Store, c: Call, id: string)
    requires Numbered(st, id, 1) && Do(st, c).leaseSeq <= Decimal.TWO_TO_THE_64 + 1
    ensures Numbered(Do(st, c), id, 1)
    ensures id in Do(st, c).leases <==> id in st.leases && !Ends(c, id, st.leases[id].key)
    ensures id in Do(st, c).leases ==> Do(st, c).leases[id] == st.leases[id]
  {
    SeqGrowsSlowly(st, c);
    if c.Attach? {
      AcquireAddsOneLease(st, c.key, c.kind, c.spawned, c.now);
      if AcquireSucceeds(st, c.key, c.spawned) {
        NumberedIsNotNext(st, id);
      }
    } else {
      OtherCallLeases(st, c);
    }
  }

  lemma NumberedIsNotNext(st: Store, id: string)
    requires Numbered(st, id, 1) && st.leaseSeq <= Decimal.TWO_TO_THE_64
    ensures id != LeaseName(st.leaseSeq)
  {
    var n: nat :| 1 <= n < st.leaseSeq && id == LeaseName(n);
    if id == LeaseName(st.leaseSeq) {
      LeaseNamesDistinct(n, st.leaseSeq);
    }
  }

  lemma OtherCallLeases(st: Store, c: Call)
    requires !c.Attach?
    ensures Do(st, c).leases ==
            match c
            case Detach(id, _) => st.leases - {id}
            case Discard(key) => LeasesWithout(st.leases, key)
            case _ => st.leases
  {
  }

  /** A lease is live after any calls exactly when none of them ends it. */
  lemma {:induction false} LeaseLivesUntilEnded(st: Store, calls: seq<Call>, id: string)
    requires Numbered(st, id, 1) && DoAll(st, calls).leaseSeq <= Decimal.TWO_TO_THE_64 + 1
    ensures id in DoAll(st, calls).leases <==>
            id in st.leases && forall c :: c in calls ==> !Ends(c, id, st.leases[id].key)
    ensures id in DoAll(st, calls).leases ==> DoAll(st, calls).leases[id] == st.leases[id]
    decreases |calls|
  {
    if calls != [] {
      var after := Do(st, calls[0]);
      SeqGrowsSlowly(st, calls[0]);
      SeqNeverFalls(after, calls[1..]);
      LeaseStep(st, calls[0], id);
      LeaseLivesUntilEnded(after, calls[1..], id);
      assert calls == [calls[0]] + calls[1..];
    }
  }

  /** Some call that other tasks make between the calls `own` ends the lease. */
  ghost predicate EndedByOthers(own: seq<Call>, windows: seq<seq<Call>>, id: string, key: SessionKey) {
    exists j, c :: 0 <= j < |own| && c in Window(windows, j) && Ends(c, id, key)
  }

  /** If no call of its own ends a lease, then it lives on exactly when no call of another task ends it. */
  lemma OthersDecide(st: Store, own: seq<Call>, windows: seq<seq<Call>>, id: string)
    requires IdsKnown(st) && id in st.leases
    requires DoAll(st, Amid(own, windows)).leaseSeq <= Decimal.TWO_TO_THE_64 + 1
    requires EndedByOthers(own, windows, id, st.leases[id].key) ||
             forall c :: c in own ==> !Ends(c, id, st.leases[id].key)
    ensures id in DoAll(st, Amid(own, windows)).leases <==> !EndedByOthers(own, windows, id, st.leases[id].key)
  {
    var key := st.leases[id].key;
    KnownLeaseLives(st, Amid(own, windows), id);
    if EndedByOthers(own, windows, id, key) {
      var j, c :| 0 <= j < |own| && c in Window(windows, j) && Ends(c, id, key);
      AmidMembers(own, windows, c);
    } else {
      forall c | c in Amid(own, windows) ensures !Ends(c, id, key) {
        AmidMembers(own, windows, c);
      }
    }
  }

  lemma KnownLeaseLives(st: Store, calls: seq<Call>, id: string)
    requires IdsKnown(st) && id in st.leases && DoAll(st, calls).leaseSeq <= Decimal.TWO_TO_THE_64 + 1
    ensures id in DoAll(st, calls).leases <==> forall c :: c in calls ==> !Ends(c, id, st.leases[id].key)
    ensures id in DoAll(st, calls).leases ==> DoAll(st, calls).leases[id] == st.leases[id]
  {
    assert id in EverIssued(st);
    LeaseLivesUntilEnded(st, calls, id);
  }

  // ----- Idle eviction

  /** All leases on `k` were issued at or after number `low`. */
  ghost predicate LeasesSince(st: Store, k: SessionKey, low: nat) {
    forall id :: id in LeaseIdsOn(st.leases, k) ==> Numbered(st, id, low)
  }

  lemma LeasesSinceStep(st: Store, c: Call, k: SessionKey, low: nat)
    requires LeasesSince(st, k, low) && low <= st.leaseSeq
    ensures LeasesSince(Do(st, c), k, low)
    ensures !c.Attach? ==> LeaseIdsOn(Do(st, c).leases, k) <= LeaseIdsOn(st.leases, k)
  {
    var after := Do(st, c);
    SeqGrowsSlowly(st, c);
    if c.Attach? {
      AcquireAddsOneLease(st, c.key, c.kind, c.spawned, c.now);
    } else {
      OtherCallLeases(st, c);
    }
    forall id | id in LeaseIdsOn(after.leases, k) ensures Numbered(after, id, low) {
      if id in LeaseIdsOn(st.leases, k) {
        assert Numbered(st, id, low);
      } else {
        assert id == LeaseName(st.leaseSeq) && after.leaseSeq == st.leaseSeq + 1;
      }
    }
  }

  lemma {:induction false} LeasesSinceRun(st: Store, calls: seq<Call>, k: SessionKey, low: nat)
    requires LeasesSince(st, k, low) && low <= st.leaseSeq
    ensures LeasesSince(DoAll(st, calls), k, low)
    ensures (forall c :: c in calls ==> !c.Attach?) ==>
              LeaseIdsOn(DoAll(st, calls).leases, k) <= LeaseIdsOn(st.leases, k)
    decreases |calls|
  {
    if calls != [] {
      LeasesSinceStep(st, calls[0], k, low);
      SeqGrowsSlowly(st, calls[0]);
      LeasesSinceRun(Do(st, calls[0]), calls[1..], k, low);
    }
  }

  /**
   The eviction loop marks the idle sessions and, possibly many calls later, removes one of them.
   Every lease that this removal drops was issued after the marking; without an attach in between it
   drops none.  As long as numbers do not wrap round, the ids it drops were not in use before either.
   */
  lemma IdleEvictionSparesLeases(st: Store, now: nat, k: SessionKey, calls: seq<Call>)
    requires Balanced(st) && k in IdleKeys(st, now)
    ensures var marked := IdleCall(st, now);
            var before := DoAll(marked, calls);
            var after := RemoveCall(before, k);
            && (forall id :: id in before.leases && id !in after.leases ==> Numbered(before, id, marked.leaseSeq))
            && ((forall c :: c in calls ==> !c.Attach?) ==> after.leases == before.leases)
            && (before.leaseSeq <= Decimal.TWO_TO_THE_64 + 1 ==>
                  forall id :: id in before.leases && id !in after.leases ==> id !in EverIssued(st))
  {
    var marked := IdleCall(st, now);
    assert LeaseIdsOn(st.leases, k) == {} by {
      assert st.sessions[k].refCount == 0 == |LeaseIdsOn(st.leases, k)|;
    }
    LeasesSinceRun(marked, calls, k, marked.leaseSeq);
    var before := DoAll(marked, calls);
    var after := RemoveCall(before, k);
    forall id | id in before.leases && id !in after.leases ensures Numbered(before, id, marked.leaseSeq) {
      assert id in LeaseIdsOn(before.leases, k);
    }
    if forall c :: c in calls ==> !c.Attach? {
      assert forall id :: id in before.leases ==> id !in LeaseIdsOn(before.leases, k);
    }
    if before.leaseSeq <= Decimal.TWO_TO_THE_64 + 1 {
      forall id | id in before.leases && id !in after.leases ensures id !in EverIssued(st) {
        LateIdIsNew(st, before, id);
      }
    }
  }

  lemma LateIdIsNew(st: Store, later: Store, id: string)
    requires IdsKnown(st) && Numbered(later, id, st.leaseSeq) && later.leaseSeq <= Decimal.TWO_TO_THE_64 + 1
    ensures id !in EverIssued(st)
  {
    if id in EverIssued(st) {
      var m: nat :| 1 <= m < st.leaseSeq && id == LeaseName(m);
      var n: nat :| st.leaseSeq <= n < later.leaseSeq && id == LeaseName(n);
      LeaseNamesDistinct(m, n);
      assert false;
    }
  }
}
