/** Memory-budget eviction (crates/lspee_daemon/src/memory.rs). */
module Memory {
  import opened Wrappers
  import opened RegistryTypes
  import opened MemoryOrder
  import Decimal

  datatype Settings = Settings(maxSessionBytes: Option<nat>, maxTotalBytes: Option<nat>)

  function Total(samples: seq<MemorySample>): nat {
    if samples == [] then 0 else Total(samples[..|samples| - 1]) + samples[|samples| - 1].rssBytes
  }

  function KeysOf(samples: seq<MemorySample>): set<SessionKey> {
    set s | s in samples :: s.key
  }

  ghost predicate DistinctKeys(samples: seq<MemorySample>) {
    forall j, l :: 0 <= j < l < |samples| ==> samples[j].key != samples[l].key
  }

  // ----- What the selection is made of

  function OverLimit(samples: seq<MemorySample>, limit: nat): seq<MemorySample> {
    if samples == [] then []
    else
      var front, last := samples[..|samples| - 1], samples[|samples| - 1];
      OverLimit(front, limit) + if last.rssBytes > limit then [last] else []
  }

  /** The samples whose key is not in `keys`. */
  function Without(samples: seq<MemorySample>, keys: set<SessionKey>): seq<MemorySample> {
    if samples == [] then []
    else
      var front, last := samples[..|samples| - 1], samples[|samples| - 1];
      Without(front, keys) + if last.key in keys then [] else [last]
  }

  /** How many samples the total phase takes from the front of `order`, given the bytes in use. */
  function Taken(order: seq<MemorySample>, total: nat, limit: nat): (n: nat)
    ensures n <= |order|
  {
    if order == [] || total <= limit then 0
    else 1 + Taken(order[1..], SaturatingSub(total, order[0].rssBytes), limit)
  }

  function SaturatingSub(a: nat, b: nat): nat {
    if a >= b then a - b else 0
  }

  /** Adding up `u64`s wraps round. */
  function Wrapped(n: nat): nat {
    n % Decimal.TWO_TO_THE_64
  }

  function SessionPhase(samples: seq<MemorySample>, settings: Settings): seq<MemorySample> {
    if settings.maxSessionBytes.Some? then Sorted(OverLimit(samples, settings.maxSessionBytes.value)) else []
  }

  function Rest(samples: seq<MemorySample>, settings: Settings): seq<MemorySample> {
    Without(samples, KeysOf(SessionPhase(samples, settings)))
  }

  function TakenCount(samples: seq<MemorySample>, settings: Settings): nat {
    var rest := Rest(samples, settings);
    if settings.maxTotalBytes.Some? then Taken(Sorted(rest), Wrapped(Total(rest)), settings.maxTotalBytes.value) else 0
  }

  function TotalPhase(samples: seq<MemorySample>, settings: Settings): seq<MemorySample> {
    Sorted(Rest(samples, settings))[..TakenCount(samples, settings)]
  }

  /** The first sample of each key. */
  function Deduped(samples: seq<MemorySample>): seq<MemorySample> {
    if samples == [] then []
    else
      var front, last := samples[..|samples| - 1], samples[|samples| - 1];
      Deduped(front) + if last.key in KeysOf(front) then [] else [last]
  }

  function Selection(samples: seq<MemorySample>, settings: Settings): seq<MemorySample> {
    Deduped(SessionPhase(samples, settings) + TotalPhase(samples, settings))
  }

  function Survivors(samples: seq<MemorySample>, settings: Settings): seq<MemorySample> {
    Without(samples, KeysOf(Selection(samples, settings)))
  }

  // ----- The loops

  method DedupeByKey(samples: seq<MemorySample>) returns (deduped: seq<MemorySample>)
    ensures deduped == Deduped(samples)
  {
    var seen: set<SessionKey> := {};
    deduped := [];
    for j := 0 to |samples|
      invariant seen == KeysOf(samples[..j]) && deduped == Deduped(samples[..j])
    {
      assert samples[..j + 1][..j] == samples[..j];
      assert KeysOf(samples[..j + 1]) == KeysOf(samples[..j]) + {samples[j].key};
      if samples[j].key !in seen {
        seen := seen + {samples[j].key};
        deduped := deduped + [samples[j]];
      }
    }
    assert samples[..|samples|] == samples;
  }

  method SortedCopy(samples: seq<MemorySample>) returns (sorted: seq<MemorySample>)
    ensures sorted == Sorted(samples)
  {
    var a := new MemorySample[|samples|](j requires 0 <= j < |samples| => samples[j]);
    assert a[..] == samples;
    SortCandidates(a);
    sorted := a[..];
  }

  method CollectOverLimit(samples: seq<MemorySample>, limit: nat) returns (over: seq<MemorySample>)
    ensures over == OverLimit(samples, limit)
  {
    over := [];
    for j := 0 to |samples|
      invariant over == OverLimit(samples[..j], limit)
    {
      assert samples[..j + 1][..j] == samples[..j];
      if samples[j].rssBytes > limit {
        over := over + [samples[j]];
      }
    }
    assert samples[..|samples|] == samples;
  }

  method Retain(samples: seq<MemorySample>, key: SessionKey) returns (kept: seq<MemorySample>)
    ensures kept == Without(samples, {key})
  {
    kept := [];
    for j := 0 to |samples|
      invariant kept == Without(samples[..j], {key})
    {
      assert samples[..j + 1][..j] == samples[..j];
      if samples[j].key != key {
        kept := kept + [samples[j]];
      }
    }
    assert samples[..|samples|] == samples;
  }

  method SumBytes(samples: seq<MemorySample>) returns (total: nat)
    ensures total == Wrapped(Total(samples))
  {
    total := 0;
    for j := 0 to |samples|
      invariant total == Wrapped(Total(samples[..j]))
    {
      assert samples[..j + 1][..j] == samples[..j];
      WrappedAdd(Total(samples[..j]), samples[j].rssBytes);
      total := Wrapped(total + samples[j].rssBytes);
    }
    assert samples[..|samples|] == samples;
  }

  lemma WrappedAdd(a: nat, b: nat)
    ensures Wrapped(Wrapped(a) + b) == Wrapped(a + b)
  {
    var q := a / 0x1_0000_0000_0000_0000;
    assert a == q * 0x1_0000_0000_0000_0000 + Wrapped(a);
  }

  method SelectEvictions(samples: seq<MemorySample>, settings: Settings) returns (selected: seq<MemorySample>)
    ensures selected == Selection(samples, settings)
  {
    var remaining := samples;
    selected := [];
    WithoutNothing(samples);
    if settings.maxSessionBytes.Some? {
      var found := CollectOverLimit(remaining, settings.maxSessionBytes.value);
      selected := SortedCopy(found);
      remaining := RetainOthers(remaining, selected);
    }
    assert selected == SessionPhase(samples, settings) && remaining == Rest(samples, settings);
    ghost var first := selected;
    if settings.maxTotalBytes.Some? {
      var total := SumBytes(remaining);
      if total > settings.maxTotalBytes.value {
        remaining := SortedCopy(remaining);
        var taken := TakeUntilFits(remaining, total, settings.maxTotalBytes.value);
        selected := selected + taken;
      }
    }
    assert selected == first + TotalPhase(samples, settings);
    selected := DedupeByKey(selected);
  }

  /** The loop of the session phase: one `retain` for each selected sample. */
  method RetainOthers(samples: seq<MemorySample>, selected: seq<MemorySample>) returns (remaining: seq<MemorySample>)
    ensures remaining == Without(samples, KeysOf(selected))
  {
    remaining := samples;
    WithoutNothing(samples);
    for j := 0 to |selected|
      invariant remaining == Without(samples, KeysOf(selected[..j]))
    {
      WithoutTwice(samples, KeysOf(selected[..j]), {selected[j].key});
      assert KeysOf(selected[..j + 1]) == KeysOf(selected[..j]) + {selected[j].key};
      remaining := Retain(remaining, selected[j].key);
    }
    assert selected[..|selected|] == selected;
  }

  /** The loop of the total phase.  It also drops each taken key from its list, which nobody reads again. */
  method TakeUntilFits(order: seq<MemorySample>, total: nat, limit: nat) returns (taken: seq<MemorySample>)
    ensures taken == order[..Taken(order, total, limit)]
  {
    var left: nat := total;
    taken := [];
    var j := 0;
    while j < |order| && left > limit
      invariant 0 <= j <= |order| && taken == order[..j]
      invariant j + Taken(order[j..], left, limit) == Taken(order, total, limit)
    {
      assert order[j..][1..] == order[j + 1..];
      left := SaturatingSub(left, order[j].rssBytes);
      taken := taken + [order[j]];
      j := j + 1;
    }
  }

  lemma {:induction false} WithoutNothing(samples: seq<MemorySample>)
    ensures Without(samples, KeysOf([])) == samples
  {
    if samples != [] {
      WithoutNothing(samples[..|samples| - 1]);
    }
  }

  lemma WithoutSnoc(samples: seq<MemorySample>, x: MemorySample, keys: set<SessionKey>)
    ensures Without(samples + [x], keys) == Without(samples, keys) + if x.key in keys then [] else [x]
  {
    assert (samples + [x])[..|samples|] == samples;
  }

  lemma {:induction false} WithoutTwice(samples: seq<MemorySample>, a: set<SessionKey>, b: set<SessionKey>)
    ensures Without(Without(samples, a), b) == Without(samples, a + b)
  {
    if samples != [] {
      var front, last := samples[..|samples| - 1], samples[|samples| - 1];
      WithoutTwice(front, a, b);
      WithoutSnoc(Without(front, a), last, b);
      if last.key in a {
        assert Without(samples, a) == Without(front, a);
      } else {
        assert Without(samples, a) == Without(front, a) + [last];
      }
    }
  }
}
