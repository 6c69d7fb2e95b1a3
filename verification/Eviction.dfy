/** The eviction loop of the daemon (crates/lspee_daemon/src/eviction.rs). */
module Eviction {
  import opened Wrappers
  import opened RegistryTypes
  import opened RegistrySteps
  import opened RegistryCalls
  import opened Registry
  import Decimal

  // ----- Daemon-level auto-shutdown

  /** One tick: the sessions it counts, and its two readings of the clock. */
  datatype Tick = Tick(sessions: nat, seen: nat, read: nat)

  /** The clock never goes back, from the start of the loop on. */
  ghost predicate Nondecreasing(start: nat, ticks: seq<Tick>) {
    && (forall j :: 0 <= j < |ticks| ==> start <= ticks[j].seen <= ticks[j].read)
    && (forall j, l :: 0 <= j < l < |ticks| ==> ticks[j].read <= ticks[l].seen)
  }

  function NextSince(since: Option<nat>, tick: Tick): Option<nat> {
    if tick.sessions > 0 then None else if since.Some? then since else Some(tick.seen)
  }

  /** `daemon_idle_since` before tick `n`. */
  function SinceAt(start: nat, ticks: seq<Tick>, n: nat): Option<nat>
    requires n <= |ticks|
  {
    if n == 0 then Some(start) else NextSince(SinceAt(start, ticks, n - 1), ticks[n - 1])
  }

  /** Does tick `n` send the shutdown signal, if the loop gets there? */
  predicate Fires(start: nat, ticks: seq<Tick>, n: nat, ttl: nat)
    requires n < |ticks|
  {
    var since := NextSince(SinceAt(start, ticks, n), ticks[n]);
    since.Some? && Elapsed(ticks[n].read, since.value) >= ttl
  }

  /** No session at any tick from `m` to `n`; -1 stands for the start of the loop. */
  predicate QuietFrom(ticks: seq<Tick>, m: int, n: nat)
    requires n < |ticks|
  {
    forall j :: 0 <= j <= n && m <= j ==> ticks[j].sessions == 0
  }

  function TimeOf(start: nat, ticks: seq<Tick>, m: int): nat
    requires -1 <= m < |ticks|
  {
    if m == -1 then start else ticks[m].seen
  }

  /** The daemon has had no session for `ttl` at tick `n`, as far as its ticks can tell. */
  ghost predicate Due(start: nat, ticks: seq<Tick>, n: nat, ttl: nat)
    requires n < |ticks|
  {
    exists m :: -1 <= m <= n && QuietFrom(ticks, m, n) && TimeOf(start, ticks, m) + ttl <= ticks[n].read
  }

  /** `daemon_idle_since` is the time of the earliest tick from which everything was quiet. */
  lemma {:induction false} SinceIsEarliestQuiet(start: nat, ticks: seq<Tick>, n: nat)
    returns (m: int)
    requires n < |ticks| && ticks[n].sessions == 0
    ensures -1 <= m <= n && QuietFrom(ticks, m, n)
    ensures NextSince(SinceAt(start, ticks, n), ticks[n]) == Some(TimeOf(start, ticks, m))
    ensures forall l :: -1 <= l < m ==> !QuietFrom(ticks, l, n)
  {
    if n == 0 {
      m := -1;
    } else if ticks[n - 1].sessions > 0 {
      m := n;
    } else {
      m := SinceIsEarliestQuiet(start, ticks, n - 1);
      forall l | -1 <= l < m ensures !QuietFrom(ticks, l, n) {
        assert !QuietFrom(ticks, l, n - 1);
      }
    }
  }

  lemma FiresExactlyWhenDue(start: nat, ticks: seq<Tick>, n: nat, ttl: nat)
    requires n < |ticks| && Nondecreasing(start, ticks)
    ensures Fires(start, ticks, n, ttl) <==> Due(start, ticks, n, ttl)
  {
    if ticks[n].sessions == 0 {
      var m := SinceIsEarliestQuiet(start, ticks, n);
      if l :| -1 <= l <= n && QuietFrom(ticks, l, n) && TimeOf(start, ticks, l) + ttl <= ticks[n].read {
        assert m <= l;
        assert TimeOf(start, ticks, m) <= TimeOf(start, ticks, l);
      }
    } else {
      forall m | -1 <= m <= n ensures !QuietFrom(ticks, m, n) {
        assert ticks[n].sessions != 0;
      }
    }
  }

  /** With a limit of zero the first tick without sessions is due: the code gives zero no special meaning. */
  lemma ZeroLimit(start: nat, ticks: seq<Tick>, n: nat)
    requires n < |ticks| && Nondecreasing(start, ticks)
    ensures Due(start, ticks, n, 0) <==> ticks[n].sessions == 0
  {
    if ticks[n].sessions == 0 {
      assert QuietFrom(ticks, n, n) && TimeOf(start, ticks, n) + 0 <= ticks[n].read;
    } else {
      forall m | -1 <= m <= n ensures !QuietFrom(ticks, m, n) {
        assert ticks[n].sessions != 0;
      }
    }
  }

  // ----- The loop

  /** The registry without the sessions `keys`, none of which had a lease, and `n` more evictions counted. */
  function Evicted(st: Store, keys: set<SessionKey>, n: nat): Store {
    st.(sessions := st.sessions - keys, spawnGates := st.spawnGates - keys,
    counters := st.counters.(gcIdle := st.counters.gcIdle + n))
  }

  /** The calls of one tick that evicts `keys`. */
  function TickCalls(now: nat, keys: seq<SessionKey>): seq<Call> {
    if keys == [] then [MarkIdles(now)]
    else TickCalls(now, keys[..|keys| - 1]) + [Discard(keys[|keys| - 1])] + [CountIdleGc]
  }

  lemma TickCallsSnoc(now: nat, keys: seq<SessionKey>, key: SessionKey)
    ensures TickCalls(now, keys + [key]) == TickCalls(now, keys) + [Discard(key)] + [CountIdleGc]
  {
    assert (keys + [key])[..|keys|] == keys;
  }

  lemma {:induction false} TickCallsLength(now: nat, keys: seq<SessionKey>)
    ensures |TickCalls(now, keys)| == 1 + 2 * |keys|
  {
    if keys != [] {
      TickCallsLength(now, keys[..|keys| - 1]);
    }
  }

  lemma {:induction false} TickCallMembers(now: nat, keys: seq<SessionKey>, c: Call)
    ensures c in TickCalls(now, keys) ==> c == MarkIdles(now) || c == CountIdleGc || (c.Discard? && c.key in keys)
  {
    if keys != [] {
      TickCallMembers(now, keys[..|keys| - 1], c);
      assert keys == keys[..|keys| - 1] + [keys[|keys| - 1]];
    }
  }

  function KeysOf(handles: seq<SessionHandle>): (keys: seq<SessionKey>)
    ensures |keys| == |handles| && forall j :: 0 <= j < |handles| ==> keys[j] == handles[j].key
  {
    seq(|handles|, j requires 0 <= j < |handles| => handles[j].key)
  }

  ghost function SetOf(keys: seq<SessionKey>): set<SessionKey> {
    set k | k in keys
  }

  lemma IdleHaveNoLeases(st: Store, now: nat)
    requires Conserved(st)
    ensures forall k :: k in IdleKeys(st, now) ==> LeaseIdsOn(st.leases, k) == {}
  {
    forall k | k in IdleKeys(st, now) ensures LeaseIdsOn(st.leases, k) == {} {
      assert st.sessions[k].refCount == 0 == |LeaseIdsOn(st.leases, k)|;
    }
  }

  lemma NoLeasesNoLoss(leases: Leases, key: SessionKey)
    requires LeaseIdsOn(leases, key) == {}
    ensures LeasesWithout(leases, key) == leases
  {
    assert forall id :: id in leases ==> id !in LeaseIdsOn(leases, key);
  }

  lemma OneEviction(st: Store, keys: set<SessionKey>, n: nat, key: SessionKey)
    requires LeaseIdsOn(st.leases, key) == {}
    ensures Do(RemoveCall(Evicted(st, keys, n), key), CountIdleGc) == Evicted(st, keys + {key}, n + 1)
  {
    NoLeasesNoLoss(st.leases, key);
  }

  /** With nothing in between, a tick evicts exactly the idle sessions and drops no lease. */
  lemma {:induction false} QuietTick(st: Store, now: nat, keys: seq<SessionKey>)
    requires Conserved(st) && SetOf(keys) <= IdleKeys(st, now)
    ensures DoAll(st, TickCalls(now, keys)) == Evicted(IdleCall(st, now), SetOf(keys), |keys|)
  {
    if keys == [] {
      assert SetOf(keys) == {} && [MarkIdles(now)][1..] == [];
      assert DoAll(st, [MarkIdles(now)]) == IdleCall(st, now);
    } else {
      var n := |keys| - 1;
      var front, k := TickCalls(now, keys[..n]), keys[n];
      assert SetOf(keys) == SetOf(keys[..n]) + {k};
      QuietTick(st, now, keys[..n]);
      DoAllSnoc(st, front, Discard(k));
      DoAllSnoc(st, front + [Discard(k)], CountIdleGc);
      IdleHaveNoLeases(st, now);
      OneEviction(IdleCall(st, now), SetOf(keys[..n]), n, k);
    }
  }

  lemma QuietTickIsEviction(st: Store, now: nat, keys: seq<SessionKey>, windows: seq<seq<Call>>)
    requires Conserved(st) && NoWindows(windows)
    requires SetOf(keys) == IdleKeys(st, now) && |keys| == |IdleKeys(st, now)|
    ensures DoAll(st, Amid(TickCalls(now, keys), windows)) ==
            Evicted(st, IdleKeys(st, now), |IdleKeys(st, now)|)
  {
    AmidNothing(TickCalls(now, keys), windows);
    QuietTick(st, now, keys);
    assert MarkIdle(st.sessions, now, st.idleTtl) - IdleKeys(st, now) == st.sessions - IdleKeys(st, now);
  }

  lemma MarkingIsBalanced(st: Store, own: seq<Call>, windows: seq<seq<Call>>)
    requires Balanced(st) && own != [] && (forall c :: c in Window(windows, 0) ==> CallFits(c))
    requires DoAll(st, Amid(own, windows)).leaseSeq <= Decimal.TWO_TO_THE_64 + 1
    ensures Balanced(DoAll(st, Window(windows, 0)))
    ensures DoAll(st, Window(windows, 0)).leaseSeq <= Decimal.TWO_TO_THE_64 + 1
  {
    var rest := AmidPrefix(own, windows);
    DoAllConcat(st, Window(windows, 0), rest);
    SeqNeverFalls(DoAll(st, Window(windows, 0)), rest);
    LeasesAreConserved(st, Window(windows, 0));
  }

  lemma TickItselfSpares(st: Store, now: nat, keys: seq<SessionKey>, id: string)
    requires Conserved(st) && id in st.leases && SetOf(keys) == IdleKeys(st, now)
    ensures forall c :: c in TickCalls(now, keys) ==> !Ends(c, id, st.leases[id].key)
  {
    IdleHaveNoLeases(st, now);
    assert id in LeaseIdsOn(st.leases, st.leases[id].key);
    forall c | c in TickCalls(now, keys) ensures !Ends(c, id, st.leases[id].key) {
      TickCallMembers(now, keys, c);
      assert c.Discard? && c.key in keys ==> c.key in SetOf(keys);
    }
  }

  /**
   A tick ends no lease, whatever other tasks call meanwhile: a lease from before the tick is live after it
   exactly when no call of theirs ended it.
   */
  lemma TickSparesLeases(st: Store, now: nat, keys: seq<SessionKey>, windows: seq<seq<Call>>, id: string)
    requires Balanced(st) && id in st.leases && (forall c :: c in Window(windows, 0) ==> CallFits(c))
    requires SetOf(keys) == IdleKeys(DoAll(st, Window(windows, 0)), now)
    requires DoAll(st, Amid(TickCalls(now, keys), windows)).leaseSeq <= Decimal.TWO_TO_THE_64 + 1
    ensures id in DoAll(st, Amid(TickCalls(now, keys), windows)).leases <==>
            !EndedByOthers(TickCalls(now, keys), windows, id, st.leases[id].key)
  {
    var own, key, marking := TickCalls(now, keys), st.leases[id].key, DoAll(st, Window(windows, 0));
    TickCallsLength(now, keys);
    MarkingIsBalanced(st, own, windows);
    KnownLeaseLives(st, Window(windows, 0), id);
    if !EndedByOthers(own, windows, id, key) {
      assert forall c :: c in Window(windows, 0) ==> !Ends(c, id, key);
      TickItselfSpares(marking, now, keys, id);
    }
    OthersDecide(st, own, windows, id);
  }

  lemma CandidatesAreIdle(st: Store, now: nat, candidates: seq<SessionHandle>)
    requires Conserved(st)
    requires forall k :: k in IdleKeys(st, now) ==> st.sessions[k].handle in candidates
    requires forall h :: h in candidates ==> exists k :: k in IdleKeys(st, now) && st.sessions[k].handle == h
    ensures SetOf(KeysOf(candidates)) == IdleKeys(st, now)
  {
    forall k | k in IdleKeys(st, now) ensures k in KeysOf(candidates) {
      var j :| 0 <= j < |candidates| && candidates[j] == st.sessions[k].handle;
      assert KeysOf(candidates)[j] == k;
    }
    forall k | k in KeysOf(candidates) ensures k in IdleKeys(st, now) {
      var j :| 0 <= j < |candidates| && KeysOf(candidates)[j] == k;
      assert candidates[j] in candidates;
    }
  }

  class EvictionLoop {
    const registry: SessionRegistry
    const daemonIdleTtl: Option<nat>
    var daemonIdleSince: Option<nat>
    var shutdownSent: bool

    constructor (registry: SessionRegistry, daemonIdleTtl: Option<nat>, start: nat)
      ensures this.registry == registry && this.daemonIdleTtl == daemonIdleTtl
      ensures daemonIdleSince == Some(start) && !shutdownSent
    {
      this.registry, this.daemonIdleTtl := registry, daemonIdleTtl;
      daemonIdleSince, shutdownSent := Some(start), false;
    }

    /** The eviction part of a tick, with the calls `windows` of other tasks before each of its own. */
    method EvictIdleSessions(now: nat, windows: seq<seq<Call>>) returns (ghost keys: seq<SessionKey>)
      requires Calm(registry.Contents())
      modifies registry
      ensures registry.Contents() == DoAll(old(registry.Contents()), Amid(TickCalls(now, keys), windows))
      ensures var marking := DoAll(old(registry.Contents()), Window(windows, 0));
              Conserved(marking) ==> SetOf(keys) == IdleKeys(marking, now) && |keys| == |IdleKeys(marking, now)|
      ensures Calm(registry.Contents())
    {
      ghost var st := registry.Contents();
      var candidates := MarkCandidates(now, Window(windows, 0));
      keys := KeysOf(candidates);
      AmidStep(st, [], MarkIdles(now), windows);
      assert [] + [MarkIdles(now)] == TickCalls(now, []);
      EvictAll(candidates, st, now, windows);
    }

    method EvictAll(candidates: seq<SessionHandle>, ghost st: Store, ghost now: nat, windows: seq<seq<Call>>)
      requires Calm(registry.Contents())
      requires registry.Contents() == DoAll(st, Amid(TickCalls(now, []), windows))
      modifies registry
      ensures Calm(registry.Contents())
      ensures registry.Contents() == DoAll(st, Amid(TickCalls(now, KeysOf(candidates)), windows))
    {
      ghost var keys := KeysOf(candidates);
      for j := 0 to |candidates|
        invariant Calm(registry.Contents())
        invariant registry.Contents() == DoAll(st, Amid(TickCalls(now, keys[..j]), windows))
      {
        assert keys[..j + 1] == keys[..j] + [keys[j]];
        TickCallsSnoc(now, keys[..j], keys[j]);
        TickCallsLength(now, keys[..j]);
        EvictOne(candidates[j].key, st, TickCalls(now, keys[..j]), windows, 2 * j + 1);
      }
      assert keys[..|candidates|] == keys;
    }

    method MarkCandidates(now: nat, window: seq<Call>) returns (candidates: seq<SessionHandle>)
      requires Calm(registry.Contents())
      modifies registry
      ensures registry.Contents() == Do(DoAll(old(registry.Contents()), window), MarkIdles(now))
      ensures Calm(registry.Contents())
      ensures var marking, keys := DoAll(old(registry.Contents()), window), KeysOf(candidates);
              Conserved(marking) ==> SetOf(keys) == IdleKeys(marking, now) && |keys| == |IdleKeys(marking, now)|
    {
      registry.PerformAll(window);
      ghost var marking := registry.Contents();
      CallKeepsCalm(marking, MarkIdles(now));
      candidates := registry.IdleCandidates(now);
      if Conserved(marking) {
        CandidatesAreIdle(marking, now, candidates);
      }
    }

    method EvictOne(key: SessionKey, ghost st: Store, ghost own: seq<Call>, windows: seq<seq<Call>>, j: nat)
      requires Calm(registry.Contents()) && |own| == j
      requires registry.Contents() == DoAll(st, Amid(own, windows))
      modifies registry
      ensures Calm(registry.Contents())
      ensures registry.Contents() == DoAll(st, Amid(own + [Discard(key)] + [CountIdleGc], windows))
    {
      AmidStep(st, own, Discard(key), windows);
      AmidStep(st, own + [Discard(key)], CountIdleGc, windows);
      registry.PerformAfter(Window(windows, j), Discard(key));
      registry.PerformAfter(Window(windows, j + 1), CountIdleGc);
    }

    /** One tick of the loop; `before` is what other tasks call before the daemon counts its sessions. */
    method OnTick(now: nat, windows: seq<seq<Call>>, before: seq<Call>, seen: nat, read: nat)
      returns (ghost keys: seq<SessionKey>)
      requires Calm(registry.Contents())
      modifies this, registry
      ensures registry.Contents() ==
              DoAll(DoAll(old(registry.Contents()), Amid(TickCalls(now, keys), windows)), before)
      ensures var marking := DoAll(old(registry.Contents()), Window(windows, 0));
              Conserved(marking) ==> SetOf(keys) == IdleKeys(marking, now) && |keys| == |IdleKeys(marking, now)|
      ensures daemonIdleTtl.Some? ==>
                daemonIdleSince == NextSince(old(daemonIdleSince), Tick(|registry.sessions|, seen, read))
    {
      keys := EvictIdleSessions(now, windows);
      registry.PerformAll(before);
      CheckDaemon(Tick(|registry.sessions|, seen, read));
    }

    /** The auto-shutdown part of a tick. */
    method CheckDaemon(tick: Tick)
      modifies this
      ensures daemonIdleTtl.None? ==> daemonIdleSince == old(daemonIdleSince) && shutdownSent == old(shutdownSent)
      ensures daemonIdleTtl.Some? ==>
                && daemonIdleSince == NextSince(old(daemonIdleSince), tick)
                && (shutdownSent <==>
                      || old(shutdownSent)
                      || (daemonIdleSince.Some? &&
                          Elapsed(tick.read, daemonIdleSince.value) >= daemonIdleTtl.value))
    {
      if daemonIdleTtl.Some? {
        if tick.sessions == 0 {
          if daemonIdleSince.None? {
            daemonIdleSince := Some(tick.seen);
          }
          if Elapsed(tick.read, daemonIdleSince.value) >= daemonIdleTtl.value {
            shutdownSent := true;
          }
        } else {
          daemonIdleSince := None;
        }
      }
    }

    /**
     The loop over its ticks, up to the signal.  It sends the signal at tick `n` exactly when `n` is the
     first tick at which the daemon is due; without a limit it never does.
     */
    method Watch(start: nat, ticks: seq<Tick>) returns (stoppedAt: Option<nat>)
      requires daemonIdleSince == Some(start) && !shutdownSent && Nondecreasing(start, ticks)
      modifies this
      ensures shutdownSent == stoppedAt.Some?
      ensures daemonIdleTtl.None? ==> stoppedAt.None?
      ensures daemonIdleTtl.Some? && stoppedAt.Some? ==>
                && stoppedAt.value < |ticks| && Due(start, ticks, stoppedAt.value, daemonIdleTtl.value)
                && forall n :: 0 <= n < stoppedAt.value ==> !Due(start, ticks, n, daemonIdleTtl.value)
      ensures daemonIdleTtl.Some? && stoppedAt.None? ==>
                forall n :: 0 <= n < |ticks| ==> !Due(start, ticks, n, daemonIdleTtl.value)
    {
      for j := 0 to |ticks|
        invariant !shutdownSent
        invariant daemonIdleTtl.Some? ==> daemonIdleSince == SinceAt(start, ticks, j)
        invariant daemonIdleTtl.Some? ==> forall n :: 0 <= n < j ==> !Due(start, ticks, n, daemonIdleTtl.value)
      {
        CheckDaemon(ticks[j]);
        if daemonIdleTtl.Some? {
          FiresExactlyWhenDue(start, ticks, j, daemonIdleTtl.value);
        }
        if shutdownSent {
          return Some(j);
        }
      }
      return None;
    }
  }
}
