/** What the memory monitor's selection guarantees, for samples with distinct keys. */
module MemoryTheorems {
  import opened Wrappers
  import opened RegistryTypes
  import opened MemoryOrder
  import opened Memory
  import Decimal

  // ----- Sums

  lemma {:induction false} TotalConcat(a: seq<MemorySample>, b: seq<MemorySample>)
    ensures Total(a + b) == Total(a) + Total(b)
  {
    if b == [] {
      assert a + b == a;
    } else {
      assert (a + b)[..|a + b| - 1] == a + b[..|b| - 1];
      TotalConcat(a, b[..|b| - 1]);
    }
  }

  lemma {:induction false} TotalOfRanks(a: seq<MemorySample>, b: seq<MemorySample>)
    requires RanksOf(a) == RanksOf(b)
    ensures |a| == |b| && Total(a) == Total(b)
  {
    assert |a| == |RanksOf(a)| == |RanksOf(b)| == |b|;
    if a != [] {
      var n := |a| - 1;
      assert RanksOf(a)[n] == RanksOf(b)[n];
      assert RanksOf(a[..n]) == RanksOf(a)[..n] && RanksOf(b[..n]) == RanksOf(b)[..n];
      TotalOfRanks(a[..n], b[..n]);
    }
  }

  lemma TotalOfPermutation(a: seq<MemorySample>, b: seq<MemorySample>)
    requires multiset(a) == multiset(b)
    ensures Total(a) == Total(b)
  {
    SortedRanksOfPermutation(a, b);
    TotalOfRanks(Sorted(a), Sorted(b));
    TotalOfSorted(a);
    TotalOfSorted(b);
  }

  lemma {:induction false} TotalOfInsert(s: seq<MemorySample>, x: MemorySample)
    ensures Total(Insert(s, x)) == Total(s) + x.rssBytes
  {
    if s == [] || AtMost(s[|s| - 1], x) {
      TotalConcat(s, [x]);
      assert [x][..0] == [];
    } else {
      var last := s[|s| - 1];
      TotalOfInsert(s[..|s| - 1], x);
      TotalConcat(Insert(s[..|s| - 1], x), [last]);
      assert [last][..0] == [];
    }
  }

  lemma {:induction false} TotalOfSorted(s: seq<MemorySample>)
    ensures Total(Sorted(s)) == Total(s)
  {
    if s != [] {
      TotalOfSorted(s[..|s| - 1]);
      TotalOfInsert(Sorted(s[..|s| - 1]), s[|s| - 1]);
    }
  }

  // ----- Parts of a sample list

  lemma {:induction false} WithoutMembers(samples: seq<MemorySample>, keys: set<SessionKey>)
    ensures forall s :: s in Without(samples, keys) <==> s in samples && s.key !in keys
  {
    if samples != [] {
      WithoutMembers(samples[..|samples| - 1], keys);
      assert samples == samples[..|samples| - 1] + [samples[|samples| - 1]];
    }
  }

  lemma {:induction false} OverLimitMembers(samples: seq<MemorySample>, limit: nat)
    ensures forall s :: s in OverLimit(samples, limit) <==> s in samples && s.rssBytes > limit
  {
    if samples != [] {
      OverLimitMembers(samples[..|samples| - 1], limit);
      assert samples == samples[..|samples| - 1] + [samples[|samples| - 1]];
    }
  }

  lemma SortedMembers(samples: seq<MemorySample>)
    ensures forall s :: s in Sorted(samples) <==> s in samples
  {
    SortedSorts(samples);
    forall s ensures s in Sorted(samples) <==> s in samples {
      assert s in Sorted(samples) <==> s in multiset(Sorted(samples));
      assert s in samples <==> s in multiset(samples);
    }
  }

  /** Each sample occurs once. */
  lemma OncePerSample(samples: seq<MemorySample>, s: MemorySample)
    requires DistinctKeys(samples)
    ensures multiset(samples)[s] == if s in samples then 1 else 0
    decreases |samples|
  {
    if samples != [] {
      var front, last := samples[..|samples| - 1], samples[|samples| - 1];
      OncePerSample(front, s);
      assert samples == front + [last];
      assert last !in front;
    }
  }

  /** Lists with distinct keys are permutations of each other as soon as they have the same members. */
  lemma SameMembersPermute(a: seq<MemorySample>, b: seq<MemorySample>)
    requires DistinctKeys(a) && DistinctKeys(b) && forall s :: s in a <==> s in b
    ensures multiset(a) == multiset(b)
  {
    forall s ensures multiset(a)[s] == multiset(b)[s] {
      OncePerSample(a, s);
      OncePerSample(b, s);
    }
  }

  /** A list whose samples all occur at most once, and come from a list with distinct keys, has distinct keys. */
  lemma SubDistinct(samples: seq<MemorySample>, part: seq<MemorySample>)
    requires DistinctKeys(samples) && multiset(part) <= multiset(samples)
    ensures DistinctKeys(part)
  {
    forall j, l | 0 <= j < l < |part| ensures part[j].key != part[l].key {
      if part[j].key == part[l].key {
        assert part[j] in multiset(samples) && part[l] in multiset(samples);
        assert part[j] == part[l];
        TwiceInMultiset(part, j, l);
        OncePerSample(samples, part[j]);
      }
    }
  }

  lemma TwiceInMultiset(s: seq<MemorySample>, j: nat, l: nat)
    requires j < l < |s| && s[j] == s[l]
    ensures multiset(s)[s[j]] >= 2
  {
    assert s == s[..l] + [s[l]] + s[l + 1..];
    assert s[j] in s[..l];
  }

  lemma {:induction false} WithoutIsPart(samples: seq<MemorySample>, keys: set<SessionKey>)
    ensures multiset(Without(samples, keys)) <= multiset(samples)
  {
    if samples != [] {
      WithoutIsPart(samples[..|samples| - 1], keys);
      assert samples == samples[..|samples| - 1] + [samples[|samples| - 1]];
    }
  }

  lemma {:induction false} OverLimitIsPart(samples: seq<MemorySample>, limit: nat)
    ensures multiset(OverLimit(samples, limit)) <= multiset(samples)
  {
    if samples != [] {
      OverLimitIsPart(samples[..|samples| - 1], limit);
      assert samples == samples[..|samples| - 1] + [samples[|samples| - 1]];
    }
  }

  lemma SessionPhaseIsPart(samples: seq<MemorySample>, settings: Settings)
    requires DistinctKeys(samples)
    ensures DistinctKeys(SessionPhase(samples, settings))
    ensures forall s :: s in SessionPhase(samples, settings) ==> s in samples
  {
    if settings.maxSessionBytes.Some? {
      var limit := settings.maxSessionBytes.value;
      OverLimitIsPart(samples, limit);
      SortedSorts(OverLimit(samples, limit));
      SortedMembers(OverLimit(samples, limit));
      OverLimitMembers(samples, limit);
      SubDistinct(samples, SessionPhase(samples, settings));
    }
  }

  lemma RestIsPart(samples: seq<MemorySample>, settings: Settings)
    requires DistinctKeys(samples)
    ensures DistinctKeys(Rest(samples, settings)) && DistinctKeys(Sorted(Rest(samples, settings)))
    ensures forall s :: s in Rest(samples, settings) <==> s in samples && s !in SessionPhase(samples, settings)
    ensures forall s :: s in Rest(samples, settings) ==> s.key !in KeysOf(SessionPhase(samples, settings))
  {
    var first, rest := SessionPhase(samples, settings), Rest(samples, settings);
    SessionPhaseIsPart(samples, settings);
    WithoutIsPart(samples, KeysOf(first));
    SortedSorts(rest);
    SubDistinct(samples, rest);
    SubDistinct(samples, Sorted(rest));
    WithoutMembers(samples, KeysOf(first));
    forall s | s in samples && s !in first ensures s.key !in KeysOf(first) {
      if t :| t in first && t.key == s.key {
        SameKeySameSample(samples, s, t);
      }
    }
  }

  lemma ConcatDistinct(a: seq<MemorySample>, b: seq<MemorySample>)
    requires DistinctKeys(a) && DistinctKeys(b) && forall s :: s in b ==> s.key !in KeysOf(a)
    ensures DistinctKeys(a + b)
  {
    forall j, l | 0 <= j < l < |a + b| ensures (a + b)[j].key != (a + b)[l].key {
      if j < |a| <= l {
        assert a[j] in a && b[l - |a|] in b;
      }
    }
  }

  /** The two phases pick disjoint, duplicate-free parts of the samples. */
  lemma PhasesAreDistinct(samples: seq<MemorySample>, settings: Settings)
    requires DistinctKeys(samples)
    ensures DistinctKeys(SessionPhase(samples, settings)) && DistinctKeys(Sorted(Rest(samples, settings)))
    ensures DistinctKeys(Rest(samples, settings))
    ensures DistinctKeys(SessionPhase(samples, settings) + TotalPhase(samples, settings))
    ensures forall s :: s in SessionPhase(samples, settings) ==> s in samples
    ensures forall s :: s in TotalPhase(samples, settings) ==> s in Rest(samples, settings)
    ensures forall s :: s in Rest(samples, settings) <==> s in samples && s !in SessionPhase(samples, settings)
  {
    SessionPhaseIsPart(samples, settings);
    RestIsPart(samples, settings);
    SortedMembers(Rest(samples, settings));
    SortedLength(Rest(samples, settings));
    ConcatDistinct(SessionPhase(samples, settings), TotalPhase(samples, settings));
  }

  lemma SameKeySameSample(samples: seq<MemorySample>, s: MemorySample, t: MemorySample)
    requires DistinctKeys(samples) && s in samples && t in samples && s.key == t.key
    ensures s == t
  {
  }

  lemma {:induction false} DedupedOfDistinct(samples: seq<MemorySample>)
    requires DistinctKeys(samples)
    ensures Deduped(samples) == samples
  {
    if samples != [] {
      DedupedOfDistinct(samples[..|samples| - 1]);
      assert samples == samples[..|samples| - 1] + [samples[|samples| - 1]];
    }
  }

  /** With distinct keys the selection is the two phases in a row. */
  lemma SelectionIsBothPhases(samples: seq<MemorySample>, settings: Settings)
    requires DistinctKeys(samples)
    ensures Selection(samples, settings) == SessionPhase(samples, settings) + TotalPhase(samples, settings)
  {
    PhasesAreDistinct(samples, settings);
    DedupedOfDistinct(SessionPhase(samples, settings) + TotalPhase(samples, settings));
  }

  lemma SurvivorMembers(samples: seq<MemorySample>, settings: Settings)
    requires DistinctKeys(samples)
    ensures forall s :: s in Survivors(samples, settings) <==> s in samples && s !in Selection(samples, settings)
    ensures DistinctKeys(Survivors(samples, settings)) && DistinctKeys(Selection(samples, settings))
    ensures forall s :: s in Selection(samples, settings) ==> s in samples
  {
    var chosen := Selection(samples, settings);
    PhasesAreDistinct(samples, settings);
    SelectionIsBothPhases(samples, settings);
    WithoutMembers(samples, KeysOf(chosen));
    WithoutIsPart(samples, KeysOf(chosen));
    SubDistinct(samples, Survivors(samples, settings));
    forall s | s in samples && s !in chosen ensures s.key !in KeysOf(chosen) {
      if t :| t in chosen && t.key == s.key {
        SameKeySameSample(samples, s, t);
      }
    }
  }

  /** The selection and the survivors are a permutation of the samples. */
  lemma SelectionPartitions(samples: seq<MemorySample>, settings: Settings)
    requires DistinctKeys(samples)
    ensures multiset(Selection(samples, settings)) + multiset(Survivors(samples, settings)) == multiset(samples)
  {
    SurvivorMembers(samples, settings);
    var chosen, kept := Selection(samples, settings), Survivors(samples, settings);
    forall s ensures multiset(samples)[s] == multiset(chosen)[s] + multiset(kept)[s] {
      OncePerSample(samples, s);
      OncePerSample(chosen, s);
      OncePerSample(kept, s);
    }
  }

  // ----- The total phase takes the shortest prefix that fits

  lemma {:induction false} TakenIsShortest(order: seq<MemorySample>, limit: nat)
    ensures Total(order[Taken(order, Total(order), limit)..]) <= limit
    ensures forall j :: 0 <= j < Taken(order, Total(order), limit) ==> Total(order[j..]) > limit
  {
    assert order[0..] == order;
    if order != [] && Total(order) > limit {
      var rest := order[1..];
      assert order == [order[0]] + rest;
      TotalConcat([order[0]], rest);
      assert [order[0]][..0] == [];
      TakenIsShortest(rest, limit);
      assert order[Taken(order, Total(order), limit)..] == rest[Taken(rest, Total(rest), limit)..];
      forall j | 0 <= j < Taken(order, Total(order), limit) ensures Total(order[j..]) > limit {
        if j > 0 {
          assert order[j..] == rest[j - 1..];
        }
      }
    }
  }

  /** Do the bytes in use add up without wrapping round? */
  predicate FitsU64(samples: seq<MemorySample>) {
    Total(samples) < Decimal.TWO_TO_THE_64
  }

  lemma SmallIsNotWrapped(n: nat)
    requires n < Decimal.TWO_TO_THE_64
    ensures Wrapped(n) == n
  {
  }

  lemma RestFits(samples: seq<MemorySample>, settings: Settings)
    requires FitsU64(samples)
    ensures var rest := Rest(samples, settings);
            Total(Sorted(rest)) == Total(rest) == Wrapped(Total(rest))
  {
    WithoutIsSmaller(samples, KeysOf(SessionPhase(samples, settings)));
    TotalOfSorted(Rest(samples, settings));
    SmallIsNotWrapped(Total(Rest(samples, settings)));
  }

  lemma {:induction false} WithoutIsSmaller(samples: seq<MemorySample>, keys: set<SessionKey>)
    ensures Total(Without(samples, keys)) <= Total(samples)
  {
    if samples != [] {
      var front, last := samples[..|samples| - 1], samples[|samples| - 1];
      WithoutIsSmaller(front, keys);
      if last.key in keys {
        assert Without(samples, keys) == Without(front, keys);
      } else {
        TotalConcat(Without(front, keys), [last]);
        assert [last][..0] == [];
      }
    }
  }

  /** The total phase evicts the shortest prefix of the priority order whose removal meets the budget. */
  lemma ShortestPrefix(samples: seq<MemorySample>, settings: Settings)
    requires FitsU64(samples) && settings.maxTotalBytes.Some?
    ensures var order, n := Sorted(Rest(samples, settings)), TakenCount(samples, settings);
            && n <= |order| && TotalPhase(samples, settings) == order[..n]
            && Total(order[n..]) <= settings.maxTotalBytes.value
            && forall j :: 0 <= j < n ==> Total(order[j..]) > settings.maxTotalBytes.value
  {
    RestFits(samples, settings);
    SortedLength(Rest(samples, settings));
    TakenIsShortest(Sorted(Rest(samples, settings)), settings.maxTotalBytes.value);
  }

  /** The survivors are what the total phase leaves of its order. */
  lemma SurvivorsAreLeftOver(samples: seq<MemorySample>, settings: Settings)
    requires DistinctKeys(samples)
    ensures var order, n := Sorted(Rest(samples, settings)), TakenCount(samples, settings);
            n <= |order| && multiset(Survivors(samples, settings)) == multiset(order[n..])
  {
    SortedLength(Rest(samples, settings));
    var order, n := Sorted(Rest(samples, settings)), TakenCount(samples, settings);
    PhasesAreDistinct(samples, settings);
    SelectionIsBothPhases(samples, settings);
    SurvivorMembers(samples, settings);
    SortedMembers(Rest(samples, settings));
    forall s ensures s in Survivors(samples, settings) <==> s in order[n..] {
      assert s in order <==> s in order[..n] || s in order[n..];
    }
    SameMembersPermute(Survivors(samples, settings), order[n..]);
  }

  /** After the eviction every session fits the session limit and all together fit the total limit. */
  lemma BudgetsAreMet(samples: seq<MemorySample>, settings: Settings)
    requires DistinctKeys(samples) && FitsU64(samples)
    ensures var kept := Survivors(samples, settings);
            && (settings.maxSessionBytes.Some? ==>
                  forall s :: s in kept ==> s.rssBytes <= settings.maxSessionBytes.value)
            && (settings.maxTotalBytes.Some? ==> Total(kept) <= settings.maxTotalBytes.value)
  {
    SurvivorMembers(samples, settings);
    SelectionIsBothPhases(samples, settings);
    if settings.maxSessionBytes.Some? {
      OverLimitMembers(samples, settings.maxSessionBytes.value);
      SortedMembers(OverLimit(samples, settings.maxSessionBytes.value));
    }
    if settings.maxTotalBytes.Some? {
      ShortestPrefix(samples, settings);
      SurvivorsAreLeftOver(samples, settings);
      TotalOfPermutation(Survivors(samples, settings),
                         Sorted(Rest(samples, settings))[TakenCount(samples, settings)..]);
    }
  }

  /** Two halves of 2^64 add up to zero: nothing is evicted, far above the budget. */
  lemma WrappedTotalMissesBudget(a: MemorySample, b: MemorySample)
    requires a.key != b.key && a.rssBytes == b.rssBytes == 0x8000_0000_0000_0000
    ensures Selection([a, b], Settings(None, Some(0))) == []
    ensures Total([a, b]) == Decimal.TWO_TO_THE_64
  {
    var samples, settings := [a, b], Settings(None, Some(0));
    assert samples[..1] == [a] && [a][..0] == [];
    assert Total([a]) == a.rssBytes;
    WithoutNothing(samples);
    assert SessionPhase(samples, settings) == [];
    assert Rest(samples, settings) == samples;
  }

  // ----- A second run

  lemma {:induction false} WrappedSumLeavesTooMuch(order: seq<MemorySample>, total: nat, limit: nat)
    requires Total(order) >= total + Decimal.TWO_TO_THE_64 && limit < Decimal.TWO_TO_THE_64
    requires forall s :: s in order ==> s.rssBytes < Decimal.TWO_TO_THE_64
    ensures Total(order[Taken(order, total, limit)..]) > limit
  {
    if total <= limit {
      assert order[0..] == order;
    } else {
      var x, rest := order[0], order[1..];
      assert order == [x] + rest;
      TotalConcat([x], rest);
      assert [x][..0] == [] && x in order;
      var left := SaturatingSub(total, x.rssBytes);
      assert order[Taken(order, total, limit)..] == rest[Taken(rest, left, limit)..];
      if x.rssBytes <= total {
        WrappedSumLeavesTooMuch(rest, left, limit);
      } else {
        assert rest[0..] == rest;
      }
    }
  }

  /**
   In a build whose sums wrap, the total budget is met exactly when the bytes left after the session phase
   add up without wrapping.
   */
  lemma BudgetMetExactlyWhenSumFits(samples: seq<MemorySample>, settings: Settings)
    requires DistinctKeys(samples) && (forall s :: s in samples ==> s.rssBytes < Decimal.TWO_TO_THE_64)
    requires settings.maxTotalBytes.Some? && settings.maxTotalBytes.value < Decimal.TWO_TO_THE_64
    ensures Total(Survivors(samples, settings)) <= settings.maxTotalBytes.value <==>
            FitsU64(Rest(samples, settings))
  {
    var rest, limit := Rest(samples, settings), settings.maxTotalBytes.value;
    var order, n := Sorted(rest), TakenCount(samples, settings);
    SurvivorsAreLeftOver(samples, settings);
    TotalOfPermutation(Survivors(samples, settings), order[n..]);
    TotalOfSorted(rest);
    SortedMembers(rest);
    WithoutMembers(samples, KeysOf(SessionPhase(samples, settings)));
    if FitsU64(rest) {
      SmallIsNotWrapped(Total(rest));
      TakenIsShortest(order, limit);
    } else {
      WrapsByAtLeastOne(Total(rest));
      WrappedSumLeavesTooMuch(order, Wrapped(Total(rest)), limit);
    }
  }

  lemma WrapsByAtLeastOne(n: nat)
    requires n >= Decimal.TWO_TO_THE_64
    ensures n >= Wrapped(n) + Decimal.TWO_TO_THE_64
  {
    assert n == n / 0x1_0000_0000_0000_0000 * 0x1_0000_0000_0000_0000 + Wrapped(n);
  }

  lemma {:induction false} NothingOverLimit(samples: seq<MemorySample>, limit: nat)
    requires forall s :: s in samples ==> s.rssBytes <= limit
    ensures OverLimit(samples, limit) == []
  {
    if samples != [] {
      NothingOverLimit(samples[..|samples| - 1], limit);
    }
  }

  lemma NothingToEvict(samples: seq<MemorySample>, settings: Settings)
    requires FitsU64(samples)
    requires settings.maxSessionBytes.Some? ==>
               forall s :: s in samples ==> s.rssBytes <= settings.maxSessionBytes.value
    requires settings.maxTotalBytes.Some? ==> Total(samples) <= settings.maxTotalBytes.value
    ensures Selection(samples, settings) == []
  {
    if settings.maxSessionBytes.Some? {
      NothingOverLimit(samples, settings.maxSessionBytes.value);
    }
    assert SessionPhase(samples, settings) == [];
    WithoutNothing(samples);
    assert Rest(samples, settings) == samples;
    SmallIsNotWrapped(Total(samples));
    assert TakenCount(samples, settings) == 0;
    assert TotalPhase(samples, settings) == [];
    assert Selection(samples, settings) == Deduped([] + []);
  }

  /** Run again on the survivors, the selection is empty. */
  lemma SecondRunSelectsNothing(samples: seq<MemorySample>, settings: Settings)
    requires DistinctKeys(samples) && FitsU64(samples)
    ensures Selection(Survivors(samples, settings), settings) == []
  {
    BudgetsAreMet(samples, settings);
    WithoutIsSmaller(samples, KeysOf(Selection(samples, settings)));
    NothingToEvict(Survivors(samples, settings), settings);
  }

  // ----- Priority

  /** The total phase never evicts a session and keeps one that ranks strictly before it. */
  lemma PriorityIsRespected(samples: seq<MemorySample>, settings: Settings, evicted: MemorySample, kept: MemorySample)
    requires DistinctKeys(samples)
    requires evicted in TotalPhase(samples, settings) && kept in Survivors(samples, settings)
    ensures AtMost(evicted, kept)
    ensures LeftEditor(evicted) ==> LeftEditor(kept)
  {
    var order, n := Sorted(Rest(samples, settings)), TakenCount(samples, settings);
    SurvivorsAreLeftOver(samples, settings);
    SortedSorts(Rest(samples, settings));
    assert kept in multiset(order[n..]);
    var l :| n <= l < |order| && order[l] == kept;
    var j :| 0 <= j < n && order[j] == evicted;
    assert AtMost(order[j], order[l]);
  }

  // ----- Independence from the order of the samples

  lemma {:induction false} TakenOfRanks(a: seq<MemorySample>, b: seq<MemorySample>, total: nat, limit: nat)
    requires RanksOf(a) == RanksOf(b)
    ensures Taken(a, total, limit) == Taken(b, total, limit)
  {
    assert |a| == |RanksOf(a)| == |RanksOf(b)| == |b|;
    if a != [] && total > limit {
      assert RanksOf(a)[0] == RanksOf(b)[0];
      assert RanksOf(a[1..]) == RanksOf(a)[1..] && RanksOf(b[1..]) == RanksOf(b)[1..];
      TakenOfRanks(a[1..], b[1..], SaturatingSub(total, a[0].rssBytes), limit);
    }
  }

  lemma PermutedMembers(a: seq<MemorySample>, b: seq<MemorySample>)
    requires multiset(a) == multiset(b)
    ensures forall s :: s in a <==> s in b
  {
    forall s ensures s in a <==> s in b {
      assert s in a <==> s in multiset(a);
      assert s in b <==> s in multiset(b);
    }
  }

  /** Both phases see permutations of the same samples. */
  lemma PhasesOfPermutation(a: seq<MemorySample>, b: seq<MemorySample>, settings: Settings)
    requires multiset(a) == multiset(b) && DistinctKeys(a) && DistinctKeys(b)
    ensures multiset(SessionPhase(a, settings)) == multiset(SessionPhase(b, settings))
    ensures multiset(Rest(a, settings)) == multiset(Rest(b, settings))
  {
    PermutedMembers(a, b);
    PhasesAreDistinct(a, settings);
    PhasesAreDistinct(b, settings);
    if settings.maxSessionBytes.Some? {
      var limit := settings.maxSessionBytes.value;
      OverLimitMembers(a, limit);
      OverLimitMembers(b, limit);
      SortedMembers(OverLimit(a, limit));
      SortedMembers(OverLimit(b, limit));
    }
    SameMembersPermute(SessionPhase(a, settings), SessionPhase(b, settings));
    SameMembersPermute(Rest(a, settings), Rest(b, settings));
  }

  lemma TakenCountOfPermutation(a: seq<MemorySample>, b: seq<MemorySample>, settings: Settings)
    requires multiset(a) == multiset(b) && DistinctKeys(a) && DistinctKeys(b)
    ensures RanksOf(Sorted(Rest(a, settings))) == RanksOf(Sorted(Rest(b, settings)))
    ensures TakenCount(a, settings) == TakenCount(b, settings)
  {
    PhasesOfPermutation(a, b, settings);
    SortedRanksOfPermutation(Rest(a, settings), Rest(b, settings));
    TotalOfPermutation(Rest(a, settings), Rest(b, settings));
    if settings.maxTotalBytes.Some? {
      TakenOfRanks(Sorted(Rest(a, settings)), Sorted(Rest(b, settings)), Wrapped(Total(Rest(a, settings))),
                   settings.maxTotalBytes.value);
    }
  }

  /** Number and bytes of the evicted sessions do not depend on the order of the hash map, even with ties. */
  lemma OrderDoesNotMatter(a: seq<MemorySample>, b: seq<MemorySample>, settings: Settings)
    requires multiset(a) == multiset(b) && DistinctKeys(a) && DistinctKeys(b)
    ensures |Selection(a, settings)| == |Selection(b, settings)|
    ensures Total(Selection(a, settings)) == Total(Selection(b, settings))
  {
    SelectionIsBothPhases(a, settings);
    SelectionIsBothPhases(b, settings);
    PhasesOfPermutation(a, b, settings);
    TakenCountOfPermutation(a, b, settings);
    var x, y := Sorted(Rest(a, settings)), Sorted(Rest(b, settings));
    var n := TakenCount(a, settings);
    SortedLength(Rest(a, settings));
    SortedLength(Rest(b, settings));
    assert |x| == |RanksOf(x)| == |RanksOf(y)| == |y|;
    assert RanksOf(x[..n]) == RanksOf(x)[..n] && RanksOf(y[..n]) == RanksOf(y)[..n];
    TotalOfRanks(x[..n], y[..n]);
    TotalOfPermutation(SessionPhase(a, settings), SessionPhase(b, settings));
    assert |SessionPhase(a, settings)| == |multiset(SessionPhase(a, settings))| == |SessionPhase(b, settings)|;
    TotalConcat(SessionPhase(a, settings), TotalPhase(a, settings));
    TotalConcat(SessionPhase(b, settings), TotalPhase(b, settings));
  }

  /** Without ties the selection itself does not depend on the order. */
  lemma SameSelectionWithoutTies(a: seq<MemorySample>, b: seq<MemorySample>, settings: Settings)
    requires multiset(a) == multiset(b) && DistinctKeys(a) && DistinctKeys(b) && NoTies(a)
    ensures Selection(a, settings) == Selection(b, settings)
  {
    PermutedMembers(a, b);
    SelectionIsBothPhases(a, settings);
    SelectionIsBothPhases(b, settings);
    PhasesAreDistinct(a, settings);
    TakenCountOfPermutation(a, b, settings);
    PhasesOfPermutation(a, b, settings);
    SortedOfPermutation(Rest(a, settings), Rest(b, settings));
    if settings.maxSessionBytes.Some? {
      var limit := settings.maxSessionBytes.value;
      SortedSorts(OverLimit(a, limit));
      SortedSorts(OverLimit(b, limit));
      OverLimitMembers(a, limit);
      SortedOfPermutation(OverLimit(a, limit), OverLimit(b, limit));
    }
  }

  // ----- A larger budget evicts less

  lemma {:induction false} TakenShrinks(order: seq<MemorySample>, total: nat, low: nat, high: nat)
    requires low <= high
    ensures Taken(order, total, high) <= Taken(order, total, low)
  {
    if order != [] && total > high {
      TakenShrinks(order[1..], SaturatingSub(total, order[0].rssBytes), low, high);
    }
  }

  /** Raising the total limit gives a prefix of the old selection. */
  lemma LargerBudgetIsPrefix(samples: seq<MemorySample>, session: Option<nat>, low: nat, high: nat)
    requires DistinctKeys(samples) && low <= high
    ensures Selection(samples, Settings(session, Some(high))) <= Selection(samples, Settings(session, Some(low)))
  {
    var a, b := Settings(session, Some(high)), Settings(session, Some(low));
    SelectionIsBothPhases(samples, a);
    SelectionIsBothPhases(samples, b);
    assert SessionPhase(samples, a) == SessionPhase(samples, b);
    var rest := Rest(samples, a);
    assert rest == Rest(samples, b);
    TakenShrinks(Sorted(rest), Wrapped(Total(rest)), low, high);
  }
}
