/** How the daemon stops its sessions (crates/lspee_daemon/src/lib.rs, `shutdown_all_sessions`). */
module Shutdown {
  import opened RegistryTypes
  import opened RegistrySteps
  import opened RegistryCalls
  import opened Registry
  import Decimal

  function RemovalCalls(keys: seq<SessionKey>): seq<Call> {
    if keys == [] then [] else RemovalCalls(keys[..|keys| - 1]) + [Discard(keys[|keys| - 1])]
  }

  lemma {:induction false} RemovalCallsLength(keys: seq<SessionKey>)
    ensures |RemovalCalls(keys)| == |keys|
  {
    if keys != [] {
      RemovalCallsLength(keys[..|keys| - 1]);
    }
  }

  /** A session of the key was started by a call of another task. */
  ghost predicate AttachedByOthers(own: seq<Call>, windows: seq<seq<Call>>, key: SessionKey) {
    exists j, c :: 0 <= j < |own| && c in Window(windows, j) && c.Attach? && c.key == key
  }

  lemma SessionAppears(st: Store, c: Call, key: SessionKey)
    requires key !in st.sessions && key in Do(st, c).sessions
    ensures c.Attach? && c.key == key
  {
  }

  lemma SessionsAppear(st: Store, calls: seq<Call>, key: SessionKey)
    requires key in DoAll(st, calls).sessions
    ensures key in st.sessions || exists c :: c in calls && c.Attach? && c.key == key
    decreases |calls|
  {
    if calls != [] {
      var after := Do(st, calls[0]);
      SessionsAppear(after, calls[1..], key);
      if key !in st.sessions && key in after.sessions {
        SessionAppears(st, calls[0], key);
        assert calls[0] in calls;
      }
    }
  }

  /** After the removals, whatever session is left was not to be removed or was attached in the meantime. */
  lemma {:induction false} LeftAfterRemovals(st: Store, keys: seq<SessionKey>, windows: seq<seq<Call>>, key: SessionKey)
    requires key in DoAll(st, Amid(RemovalCalls(keys), windows)).sessions
    ensures (key in st.sessions && key !in keys) || AttachedByOthers(RemovalCalls(keys), windows, key)
  {
    if keys != [] {
      var n := |keys| - 1;
      var front := RemovalCalls(keys[..n]);
      RemovalCallsLength(keys);
      RemovalCallsLength(keys[..n]);
      AmidStep(st, front, Discard(keys[n]), windows);
      assert keys == keys[..n] + [keys[n]];
      SessionsAppear(DoAll(st, Amid(front, windows)), Window(windows, n), key);
      if key in DoAll(st, Amid(front, windows)).sessions {
        LeftAfterRemovals(st, keys[..n], windows, key);
      } else {
        var c :| c in Window(windows, n) && c.Attach? && c.key == key;
      }
    }
  }

  /**
   `shutdown_all_sessions`, with other tasks' calls before each removal.  It removes every session it finds: what is
   left in the end was attached by others in the meantime.
   */
  method ShutdownAllSessions(registry: SessionRegistry, windows: seq<seq<Call>>) returns (ghost keys: seq<SessionKey>)
    requires Calm(registry.Contents()) && Conserved(registry.Contents())
    modifies registry
    ensures registry.Contents() == DoAll(old(registry.Contents()), Amid(RemovalCalls(keys), windows))
    ensures forall k :: k in registry.sessions ==> AttachedByOthers(RemovalCalls(keys), windows, k)
  {
    ghost var st := registry.Contents();
    var handles := registry.AllHandles();
    keys := seq(|handles|, j requires 0 <= j < |handles| => handles[j].key);
    EveryKeyIsListed(st, handles, keys);
    RemoveHandles(registry, handles, st, keys, windows);
    forall k | k in registry.sessions ensures AttachedByOthers(RemovalCalls(keys), windows, k) {
      LeftAfterRemovals(st, keys, windows, k);
    }
  }

  lemma EveryKeyIsListed(st: Store, handles: seq<SessionHandle>, keys: seq<SessionKey>)
    requires Conserved(st) && (forall k :: k in st.sessions ==> st.sessions[k].handle in handles)
    requires |keys| == |handles| && (forall j :: 0 <= j < |keys| ==> keys[j] == handles[j].key)
    ensures forall k :: k in st.sessions ==> k in keys
  {
    forall k | k in st.sessions ensures k in keys {
      var j :| 0 <= j < |handles| && handles[j] == st.sessions[k].handle;
      assert keys[j] == k;
    }
  }

  method RemoveHandles(registry: SessionRegistry, handles: seq<SessionHandle>, ghost st: Store,
                       ghost keys: seq<SessionKey>, windows: seq<seq<Call>>)
    requires Calm(registry.Contents()) && registry.Contents() == st
    requires |keys| == |handles| && (forall j :: 0 <= j < |keys| ==> keys[j] == handles[j].key)
    modifies registry
    ensures registry.Contents() == DoAll(st, Amid(RemovalCalls(keys), windows))
  {
    for j := 0 to |handles|
      invariant Calm(registry.Contents())
      invariant registry.Contents() == DoAll(st, Amid(RemovalCalls(keys[..j]), windows))
    {
      assert keys[..j + 1][..j] == keys[..j];
      RemovalCallsLength(keys[..j]);
      AmidStep(st, RemovalCalls(keys[..j]), Discard(handles[j].key), windows);
      registry.PerformAfter(Window(windows, j), Discard(handles[j].key));
    }
    assert keys[..|handles|] == keys;
  }

  /** When nobody attaches meanwhile, no session and no lease is left. */
  lemma ShutdownLeavesNothing(st: Store, keys: seq<SessionKey>, windows: seq<seq<Call>>)
    requires Balanced(st) && (forall k :: k in st.sessions ==> k in keys)
    requires AllFit(RemovalCalls(keys), windows)
    requires DoAll(st, Amid(RemovalCalls(keys), windows)).leaseSeq <= Decimal.TWO_TO_THE_64 + 1
    requires forall k :: !AttachedByOthers(RemovalCalls(keys), windows, k)
    ensures var after := DoAll(st, Amid(RemovalCalls(keys), windows)); after.sessions == map[] && after.leases == map[]
  {
    var after := DoAll(st, Amid(RemovalCalls(keys), windows));
    AmidKeepsBalance(st, RemovalCalls(keys), windows);
    assert forall id :: id in after.leases ==> after.leases[id].key in after.sessions;
    forall k ensures k !in after.sessions {
      if k in after.sessions {
        LeftAfterRemovals(st, keys, windows, k);
      }
    }
  }
}
