/** The order in which the memory monitor evicts (crates/lspee_daemon/src/memory.rs, `sort_candidates`). */
module MemoryOrder {
  import opened RegistryTypes

  datatype MemorySample = MemorySample(
    key: SessionKey,
    rssBytes: nat,
    refCount: nat,
    idleFor: nat,
    clientKinds: set<ClientKind>
  )

  datatype Ordering = Less | Equal | Greater {
    function Then(next: Ordering): Ordering {
      if this.Equal? then next else this
    }
  }

  function CompareNat(a: nat, b: nat): Ordering {
    if a < b then Less else if a > b then Greater else Equal
  }

  function CompareBool(a: bool, b: bool): Ordering {
    if !a && b then Less else if a && !b then Greater else Equal
  }

  predicate LeftEditor(s: MemorySample) {
    Editor in s.clientKinds
  }

  /** Without an editor first, then unleased, then longest idle, then largest. */
  function Compare(left: MemorySample, right: MemorySample): Ordering {
    CompareBool(LeftEditor(left), LeftEditor(right))
    .Then(CompareBool(left.refCount > 0, right.refCount > 0))
    .Then(CompareNat(right.idleFor, left.idleFor))
    .Then(CompareNat(right.rssBytes, left.rssBytes))
  }

  predicate AtMost(a: MemorySample, b: MemorySample) {
    !Compare(a, b).Greater?
  }

  predicate Before(a: MemorySample, b: MemorySample) {
    Compare(a, b).Less?
  }

  predicate Ties(a: MemorySample, b: MemorySample) {
    Compare(a, b).Equal?
  }

  /** The comparator is a total preorder, as `sort_by` demands. */
  lemma CompareIsTotalPreorder(a: MemorySample, b: MemorySample, c: MemorySample)
    ensures AtMost(a, b) || AtMost(b, a)
    ensures Before(a, b) <==> !AtMost(b, a)
    ensures Ties(a, b) <==> AtMost(a, b) && AtMost(b, a)
    ensures AtMost(a, b) && AtMost(b, c) ==> AtMost(a, c)
  {
  }

  ghost predicate IsSorted(s: seq<MemorySample>) {
    forall j, l :: 0 <= j < l < |s| ==> AtMost(s[j], s[l])
  }

  // ----- Stable sorting

  /** `x` goes behind everything that does not come after it. */
  function Insert(s: seq<MemorySample>, x: MemorySample): seq<MemorySample> {
    if s == [] || AtMost(s[|s| - 1], x) then s + [x] else Insert(s[..|s| - 1], x) + [s[|s| - 1]]
  }

  function Sorted(s: seq<MemorySample>): seq<MemorySample> {
    if s == [] then [] else Insert(Sorted(s[..|s| - 1]), s[|s| - 1])
  }

  lemma {:induction false} InsertPermutes(s: seq<MemorySample>, x: MemorySample)
    ensures multiset(Insert(s, x)) == multiset(s) + multiset{x}
  {
    if s != [] && !AtMost(s[|s| - 1], x) {
      InsertPermutes(s[..|s| - 1], x);
      assert s == s[..|s| - 1] + [s[|s| - 1]];
    }
  }

  lemma SortedSnoc(s: seq<MemorySample>, last: MemorySample)
    requires IsSorted(s) && (s != [] ==> AtMost(s[|s| - 1], last))
    ensures IsSorted(s + [last])
  {
    forall j | 0 <= j < |s| ensures AtMost(s[j], last) {
      CompareIsTotalPreorder(s[j], s[|s| - 1], last);
    }
  }

  lemma {:induction false} InsertSorts(s: seq<MemorySample>, x: MemorySample)
    requires IsSorted(s)
    ensures IsSorted(Insert(s, x))
  {
    if s == [] || AtMost(s[|s| - 1], x) {
      SortedSnoc(s, x);
    } else {
      var front, last := s[..|s| - 1], s[|s| - 1];
      InsertSorts(front, x);
      InsertPermutes(front, x);
      CompareIsTotalPreorder(x, last, x);
      forall y | y in Insert(front, x) ensures AtMost(y, last) {
        assert y in multiset(front) + multiset{x};
      }
      SortedSnoc(Insert(front, x), last);
    }
  }

  lemma {:induction false} SortedSorts(s: seq<MemorySample>)
    ensures IsSorted(Sorted(s)) && multiset(Sorted(s)) == multiset(s)
  {
    if s != [] {
      SortedSorts(s[..|s| - 1]);
      InsertSorts(Sorted(s[..|s| - 1]), s[|s| - 1]);
      InsertPermutes(Sorted(s[..|s| - 1]), s[|s| - 1]);
      assert s == s[..|s| - 1] + [s[|s| - 1]];
    }
  }

  lemma SortedLength(s: seq<MemorySample>)
    ensures |Sorted(s)| == |s|
  {
    SortedSorts(s);
    assert |multiset(s)| == |s| && |multiset(Sorted(s))| == |Sorted(s)|;
  }

  /** The samples of `s` that tie with `r`, in order. */
  function TiedWith(s: seq<MemorySample>, r: MemorySample): seq<MemorySample> {
    if s == [] then []
    else TiedWith(s[..|s| - 1], r) + if Ties(s[|s| - 1], r) then [s[|s| - 1]] else []
  }

  lemma TiedWithSnoc(s: seq<MemorySample>, x: MemorySample, r: MemorySample)
    ensures TiedWith(s + [x], r) == TiedWith(s, r) + if Ties(x, r) then [x] else []
  {
    assert (s + [x])[..|s|] == s;
  }

  lemma {:induction false} InsertIsStable(s: seq<MemorySample>, x: MemorySample, r: MemorySample)
    requires IsSorted(s)
    ensures TiedWith(Insert(s, x), r) == TiedWith(s, r) + if Ties(x, r) then [x] else []
  {
    if s == [] || AtMost(s[|s| - 1], x) {
      TiedWithSnoc(s, x, r);
    } else {
      var front, last := s[..|s| - 1], s[|s| - 1];
      InsertIsStable(front, x, r);
      TiedWithSnoc(Insert(front, x), last, r);
      CompareIsTotalPreorder(x, last, r);
      CompareIsTotalPreorder(last, x, r);
      CompareIsTotalPreorder(x, r, last);
    }
  }

  /** Tied samples keep their order. */
  lemma {:induction false} SortedIsStable(s: seq<MemorySample>, r: MemorySample)
    ensures TiedWith(Sorted(s), r) == TiedWith(s, r)
  {
    if s != [] {
      SortedIsStable(s[..|s| - 1], r);
      SortedSorts(s[..|s| - 1]);
      InsertIsStable(Sorted(s[..|s| - 1]), s[|s| - 1], r);
    }
  }

  /** Inserting into a prefix leaves what is behind it alone, as long as all of that comes after `x`. */
  lemma InsertStep(s: seq<MemorySample>, n: nat, j: nat, x: MemorySample)
    requires 0 < j <= n <= |s| && !AtMost(s[j - 1], x)
    requires Insert(s[..n], x) == Insert(s[..j], x) + s[j..n]
    ensures Insert(s[..n], x) == Insert(s[..j - 1], x) + s[j - 1..n]
  {
    assert s[..j][..j - 1] == s[..j - 1];
    assert [s[j - 1]] + s[j..n] == s[j - 1..n];
  }

  lemma ShiftedIsInserted(before: seq<MemorySample>, after: seq<MemorySample>, n: nat, j: nat, x: MemorySample)
    requires j <= n < |before| == |after|
    requires j > 0 ==> AtMost(before[j - 1], x)
    requires Insert(before[..n], x) == Insert(before[..j], x) + before[j..n]
    requires forall l :: 0 <= l < j ==> after[l] == before[l]
    requires after[j] == x
    requires forall l :: j < l <= n ==> after[l] == before[l - 1]
    requires forall l :: n < l < |after| ==> after[l] == before[l]
    ensures after[..n + 1] == Insert(before[..n], x) && after[n + 1..] == before[n + 1..]
  {
    assert before[..j] != [] ==> before[..j][|before[..j]| - 1] == before[j - 1];
    var result := before[..j] + [x] + before[j..n];
    assert Insert(before[..n], x) == result;
    forall l | 0 <= l <= n ensures after[l] == result[l] {
      if l > j {
        assert result[l] == before[j..n][l - j - 1];
      }
    }
    assert after[..n + 1] == result;
  }

  /** Moves the element at `n` into place among the sorted ones before it. */
  method InsertAt(a: array<MemorySample>, n: nat)
    requires n < a.Length
    modifies a
    ensures a[..n + 1] == Insert(old(a[..n]), old(a[n]))
    ensures a[n + 1..] == old(a[n + 1..])
  {
    var x := a[n];
    ghost var before := a[..];
    var j := n;
    while j > 0 && !AtMost(a[j - 1], x)
      invariant 0 <= j <= n
      invariant forall l :: 0 <= l < j ==> a[l] == before[l]
      invariant forall l :: j < l <= n ==> a[l] == before[l - 1]
      invariant forall l :: n < l < a.Length ==> a[l] == before[l]
      invariant Insert(before[..n], x) == Insert(before[..j], x) + before[j..n]
    {
      InsertStep(before, n, j, x);
      a[j] := a[j - 1];
      j := j - 1;
    }
    a[j] := x;
    ShiftedIsInserted(before, a[..], n, j, x);
  }

  /** The in-place stable sort of `sort_by`. */
  method SortCandidates(a: array<MemorySample>)
    modifies a
    ensures a[..] == Sorted(old(a[..]))
  {
    ghost var before := a[..];
    for n := 0 to a.Length
      invariant a[..n] == Sorted(before[..n])
      invariant a[n..] == before[n..]
    {
      assert before[..n + 1][..n] == before[..n] && a[n] == before[n];
      assert a[n + 1..] == a[n..][1..];
      InsertAt(a, n);
      assert before[n + 1..] == before[n..][1..];
    }
    assert a[..] == a[..a.Length] && before == before[..a.Length];
  }

  // ----- Sorting forgets the order of the input, up to ties

  /** What the comparator looks at. */
  datatype Rank = Rank(editor: bool, held: bool, idleFor: nat, rssBytes: nat)

  function RankOf(s: MemorySample): Rank {
    Rank(LeftEditor(s), s.refCount > 0, s.idleFor, s.rssBytes)
  }

  function RanksOf(s: seq<MemorySample>): seq<Rank> {
    seq(|s|, j requires 0 <= j < |s| => RankOf(s[j]))
  }

  lemma TiesAreEqualRanks(a: MemorySample, b: MemorySample)
    ensures Ties(a, b) <==> RankOf(a) == RankOf(b)
  {
  }

  /** Of two sorted arrangements, the first elements tie. */
  lemma HeadsTie(a: seq<MemorySample>, b: seq<MemorySample>)
    requires a != [] && b != [] && IsSorted(a) && IsSorted(b)
    requires exists y :: y in b && RankOf(y) == RankOf(a[0])
    requires exists x :: x in a && RankOf(x) == RankOf(b[0])
    ensures RankOf(a[0]) == RankOf(b[0])
  {
    var y :| y in b && RankOf(y) == RankOf(a[0]);
    var x :| x in a && RankOf(x) == RankOf(b[0]);
    assert AtMost(b[0], y) && AtMost(a[0], x);
    TiesAreEqualRanks(a[0], b[0]);
  }

  /** Taking one element out of a list takes its rank out of the ranks. */
  lemma CutOut(s: seq<MemorySample>, j: nat)
    requires j < |s|
    ensures var rest := s[..j] + s[j + 1..];
            && multiset(s) == multiset(rest) + multiset{s[j]}
            && multiset(RanksOf(s)) == multiset(RanksOf(rest)) + multiset{RankOf(s[j])}
  {
    var rest := s[..j] + s[j + 1..];
    assert s == s[..j] + [s[j]] + s[j + 1..];
    var before, after := RanksOf(s)[..j], RanksOf(s)[j + 1..];
    assert RanksOf(s) == before + [RankOf(s[j])] + after;
    assert RanksOf(rest) == before + after;
  }

  /** Two permutations lose the same element and stay permutations. */
  lemma CutSame(a: seq<MemorySample>, b: seq<MemorySample>) returns (j: nat)
    requires a != [] && multiset(a) == multiset(b)
    ensures j < |b| && b[j] == a[0]
    ensures multiset(a[1..]) == multiset(b[..j] + b[j + 1..])
  {
    assert a[0] in multiset(b);
    j :| 0 <= j < |b| && b[j] == a[0];
    CutOut(a, 0);
    CutOut(b, j);
    assert a[..0] + a[1..] == a[1..];
    assert multiset(a[1..]) == multiset(a) - multiset{a[0]};
  }

  lemma {:induction false} RankMultisets(a: seq<MemorySample>, b: seq<MemorySample>)
    requires multiset(a) == multiset(b)
    ensures multiset(RanksOf(a)) == multiset(RanksOf(b))
  {
    if a == [] {
      assert |multiset(a)| == 0 && |multiset(b)| == |b|;
    } else {
      var j := CutSame(a, b);
      RankMultisets(a[1..], b[..j] + b[j + 1..]);
      CutOut(a, 0);
      CutOut(b, j);
      assert a[..0] + a[1..] == a[1..];
    }
  }

  lemma {:induction false} SortedRanksAgree(a: seq<MemorySample>, b: seq<MemorySample>)
    requires IsSorted(a) && IsSorted(b) && multiset(RanksOf(a)) == multiset(RanksOf(b))
    ensures RanksOf(a) == RanksOf(b)
  {
    assert |RanksOf(a)| == |multiset(RanksOf(a))| == |multiset(RanksOf(b))| == |RanksOf(b)|;
    if a != [] {
      RankHasSample(a, b);
      RankHasSample(b, a);
      HeadsTie(a, b);
      assert RanksOf(a) == [RankOf(a[0])] + RanksOf(a[1..]);
      assert RanksOf(b) == [RankOf(b[0])] + RanksOf(b[1..]);
      assert multiset(RanksOf(a[1..])) == multiset(RanksOf(a)) - multiset{RankOf(a[0])};
      assert multiset(RanksOf(b[1..])) == multiset(RanksOf(b)) - multiset{RankOf(b[0])};
      SortedRanksAgree(a[1..], b[1..]);
    }
  }

  lemma RankHasSample(a: seq<MemorySample>, b: seq<MemorySample>)
    requires a != [] && multiset(RanksOf(a)) == multiset(RanksOf(b))
    ensures exists y :: y in b && RankOf(y) == RankOf(a[0])
  {
    assert RanksOf(a)[0] in multiset(RanksOf(b));
    var j :| 0 <= j < |b| && RanksOf(b)[j] == RankOf(a[0]);
    assert b[j] in b;
  }

  /** However the samples are listed, sorting lines up the same ranks. */
  lemma SortedRanksOfPermutation(a: seq<MemorySample>, b: seq<MemorySample>)
    requires multiset(a) == multiset(b)
    ensures RanksOf(Sorted(a)) == RanksOf(Sorted(b))
  {
    SortedSorts(a);
    SortedSorts(b);
    RankMultisets(Sorted(a), Sorted(b));
    SortedRanksAgree(Sorted(a), Sorted(b));
  }

  ghost predicate NoTies(s: seq<MemorySample>) {
    forall x, y :: x in s && y in s && Ties(x, y) ==> x == y
  }

  /** Without ties the sorted list itself does not depend on the input order. */
  lemma SortedOfPermutation(a: seq<MemorySample>, b: seq<MemorySample>)
    requires multiset(a) == multiset(b) && NoTies(a)
    ensures Sorted(a) == Sorted(b)
  {
    SortedRanksOfPermutation(a, b);
    SortedSorts(a);
    SortedSorts(b);
    assert |Sorted(a)| == |RanksOf(Sorted(a))| == |RanksOf(Sorted(b))| == |Sorted(b)|;
    forall j | 0 <= j < |Sorted(a)| ensures Sorted(a)[j] == Sorted(b)[j] {
      var x, y := Sorted(a)[j], Sorted(b)[j];
      assert RanksOf(Sorted(a))[j] == RanksOf(Sorted(b))[j];
      TiesAreEqualRanks(x, y);
      assert x in multiset(a) && y in multiset(a);
    }
  }
}
