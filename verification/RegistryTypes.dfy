/**
 The data of the daemon's session registry (crates/lspee_daemon/src/registry.rs), and the small
 updates that its methods apply to one session record.  `Registry` uses them for whole method calls,
 `RegistrySteps` for one lock region at a time.
 */
module RegistryTypes {
  import opened Wrappers
  import Decimal

  datatype SessionKey = SessionKey(root: string, lspId: string, configHash: string)

  datatype ClientKind = Editor | Agent | Human | Ci | Other

  /** The code of the notice, and of the error, for a session that memory eviction takes. */
  const EVICTED_MEMORY := "E_SESSION_EVICTED_MEMORY"

  datatype Notice = Notice(code: string, message: string, retryable: bool)

  /** A running language server; `runtime` tells two servers started under the same key apart. */
  datatype SessionHandle = SessionHandle(key: SessionKey, runtime: nat)

  datatype SessionRecord = SessionRecord(
    handle: SessionHandle,
    refCount: nat,
    lastUsed: nat,
    terminating: bool,
    notice: Option<Notice>
  )

  datatype LeaseRecord = LeaseRecord(key: SessionKey, clientKind: Option<ClientKind>)

  datatype Counters = Counters(spawned: nat, reused: nat, gcIdle: nat, evictedMemory: nat, crashes: nat, attach: nat)

  const NO_COUNTS := Counters(0, 0, 0, 0, 0, 0)

  function NewRecord(handle: SessionHandle, now: nat): SessionRecord {
    SessionRecord(handle, 0, now, false, None)
  }

  /** What an attach does to the record it joins: it also takes back a pending termination. */
  function Joined(r: SessionRecord, now: nat): SessionRecord {
    r.(refCount := r.refCount + 1, terminating := false, notice := None, lastUsed := now)
  }

  function Left(r: SessionRecord, now: nat): SessionRecord {
    r.(refCount := if r.refCount > 0 then r.refCount - 1 else 0, lastUsed := now)
  }

  function Touched(r: SessionRecord, now: nat): SessionRecord {
    r.(lastUsed := now)
  }

  function Marked(r: SessionRecord, notice: Option<Notice>): SessionRecord {
    r.(terminating := true, notice := notice)
  }

  /** `Instant` subtraction saturates at zero. */
  function Elapsed(now: nat, since: nat): nat {
    if now >= since then now - since else 0
  }

  predicate IsIdle(r: SessionRecord, now: nat, ttl: nat) {
    !r.terminating && r.refCount == 0 && Elapsed(now, r.lastUsed) >= ttl
  }

  function MarkIdle(sessions: map<SessionKey, SessionRecord>, now: nat, ttl: nat): map<SessionKey, SessionRecord> {
    map k | k in sessions ::
      if IsIdle(sessions[k], now, ttl) then sessions[k].(terminating := true) else sessions[k]
  }

  type Leases = map<string, LeaseRecord>

  function LeasesWithout(leases: Leases, key: SessionKey): Leases {
    map id | id in leases && leases[id].key != key :: leases[id]
  }

  function LeaseIdsOn(leases: Leases, key: SessionKey): set<string> {
    set id | id in leases && leases[id].key == key
  }

  function LeasesOn(leases: Leases, key: SessionKey): nat {
    |LeaseIdsOn(leases, key)|
  }

  lemma LeasesAfterInsert(leases: Leases, id: string, r: LeaseRecord, key: SessionKey)
    requires id !in leases
    ensures LeasesOn(leases[id := r], key) == LeasesOn(leases, key) + if r.key == key then 1 else 0
    ensures |leases[id := r]| == |leases| + 1
  {
    var after := LeaseIdsOn(leases[id := r], key);
    assert after == LeaseIdsOn(leases, key) + if r.key == key then {id} else {};
  }

  lemma LeasesAfterRemove(leases: Leases, id: string, key: SessionKey)
    requires id in leases
    ensures LeasesOn(leases - {id}, key) == LeasesOn(leases, key) - if leases[id].key == key then 1 else 0
    ensures |leases - {id}| == |leases| - 1
  {
    var after := LeaseIdsOn(leases - {id}, key);
    assert after == LeaseIdsOn(leases, key) - if leases[id].key == key then {id} else {};
    assert (leases - {id}).Keys == leases.Keys - {id};
  }

  lemma LeasesAfterRetain(leases: Leases, gone: SessionKey, key: SessionKey)
    ensures LeasesOn(LeasesWithout(leases, gone), key) == if key == gone then 0 else LeasesOn(leases, key)
    ensures |LeasesWithout(leases, gone)| + LeasesOn(leases, gone) == |leases|
  {
    var rest := LeasesWithout(leases, gone);
    assert LeaseIdsOn(rest, key) == if key == gone then {} else LeaseIdsOn(leases, key);
    assert leases.Keys == rest.Keys + LeaseIdsOn(leases, gone);
    assert |leases.Keys| == |rest.Keys| + |LeaseIdsOn(leases, gone)|;
  }

  lemma RetainKeys(leases: Leases, key: SessionKey)
    ensures LeaseIdsOn(leases, key) <= leases.Keys
    ensures LeasesWithout(leases, key).Keys == leases.Keys - LeaseIdsOn(leases, key)
  {
  }

  /** `n` counts the calls of `next_lease_id` from 1; the program keeps it in a `u64`, which wraps. */
  function LeaseName(n: nat): string {
    "lease_" + Decimal.Print(n % Decimal.TWO_TO_THE_64)
  }

  /** Two calls of `next_lease_id` give the same id exactly when they are a multiple of 2^64 calls apart. */
  lemma LeaseNamesClash(m: nat, n: nat)
    ensures LeaseName(m) == LeaseName(n) <==> m % Decimal.TWO_TO_THE_64 == n % Decimal.TWO_TO_THE_64
  {
    var a, b := m % Decimal.TWO_TO_THE_64, n % Decimal.TWO_TO_THE_64;
    if LeaseName(m) == LeaseName(n) {
      assert Decimal.Print(a) == LeaseName(m)[6..];
      assert Decimal.Print(b) == LeaseName(n)[6..];
      Decimal.PrintIsInjective(a, b);
    }
  }

  lemma LeaseNamesDistinct(m: nat, n: nat)
    requires 1 <= m <= Decimal.TWO_TO_THE_64
    requires 1 <= n <= Decimal.TWO_TO_THE_64
    requires LeaseName(m) == LeaseName(n)
    ensures m == n
  {
    LeaseNamesClash(m, n);
    assert Decimal.TWO_TO_THE_64 % Decimal.TWO_TO_THE_64 == 0;
  }
}
