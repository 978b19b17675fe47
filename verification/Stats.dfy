/**
 The request statistics of internal/client/stats/stats.go: a window of the last durations and the order
 statistics of a snapshot.
 */
module Stats {
  // ---- sorting ----

  function Insert(x: int, s: seq<int>): (r: seq<int>)
    ensures |r| == |s| + 1
  {
    if s == [] || x <= s[0] then [x] + s else [s[0]] + Insert(x, s[1..])
  }

  /** What `sort.Slice` computes; any other sorted permutation is the same sequence. */
  function Sort(s: seq<int>): (r: seq<int>)
    ensures |r| == |s|
  {
    if s == [] then [] else Insert(s[|s| - 1], Sort(s[..|s| - 1]))
  }

  ghost predicate Sorted(s: seq<int>) {
    forall i, j :: 0 <= i < j < |s| ==> s[i] <= s[j]
  }

  lemma {:induction false} InsertPermutes(x: int, s: seq<int>)
    ensures multiset(Insert(x, s)) == multiset(s) + multiset{x}
  {
    if s != [] && x > s[0] {
      InsertPermutes(x, s[1..]);
      assert s == [s[0]] + s[1..];
    }
  }

  lemma {:induction false} InsertSorts(x: int, s: seq<int>)
    requires Sorted(s)
    ensures Sorted(Insert(x, s))
  {
    if s != [] && x > s[0] {
      var r := Insert(x, s[1..]);
      InsertSorts(x, s[1..]);
      InsertPermutes(x, s[1..]);
      forall i | 0 <= i < |r|
        ensures s[0] <= r[i]
      {
        assert r[i] in multiset(r);
      }
    }
  }

  lemma {:induction false} SortSorts(s: seq<int>)
    ensures Sorted(Sort(s)) && multiset(Sort(s)) == multiset(s)
  {
    if s != [] {
      SortSorts(s[..|s| - 1]);
      InsertSorts(s[|s| - 1], Sort(s[..|s| - 1]));
      InsertPermutes(s[|s| - 1], Sort(s[..|s| - 1]));
      assert s == s[..|s| - 1] + [s[|s| - 1]];
    }
  }

  lemma TailMultiset(s: seq<int>)
    requires s != []
    ensures multiset(s[1..]) == multiset(s) - multiset{s[0]}
  {
    assert s == [s[0]] + s[1..];
  }

  lemma SameSmallest(s: seq<int>, t: seq<int>)
    requires Sorted(s) && Sorted(t) && multiset(s) == multiset(t) && s != []
    ensures t != [] && s[0] == t[0] && multiset(s[1..]) == multiset(t[1..])
  {
    assert s[0] in multiset(t);
    assert t[0] in multiset(s);
    TailMultiset(s);
    TailMultiset(t);
  }

  lemma {:induction false} SortedPermutationIsUnique(s: seq<int>, t: seq<int>)
    requires Sorted(s) && Sorted(t) && multiset(s) == multiset(t)
    ensures s == t
  {
    if s == [] {
      assert |t| == |multiset(t)| == 0;
    } else {
      SameSmallest(s, t);
      SortedPermutationIsUnique(s[1..], t[1..]);
      assert s == [s[0]] + s[1..] && t == [t[0]] + t[1..];
    }
  }

  /** How many elements are below x, and how many are at most x. */
  function Below(s: seq<int>, x: int): nat {
    if s == [] then 0 else Below(s[..|s| - 1], x) + if s[|s| - 1] < x then 1 else 0
  }

  function AtMost(s: seq<int>, x: int): nat {
    if s == [] then 0 else AtMost(s[..|s| - 1], x) + if s[|s| - 1] <= x then 1 else 0
  }

  lemma {:induction false} InsertCounts(y: int, s: seq<int>, x: int)
    ensures Below(Insert(y, s), x) == Below(s, x) + if y < x then 1 else 0
    ensures AtMost(Insert(y, s), x) == AtMost(s, x) + if y <= x then 1 else 0
  {
    if s == [] || y <= s[0] {
      CountsConcat([y], s, x);
    } else {
      InsertCounts(y, s[1..], x);
      CountsConcat([s[0]], Insert(y, s[1..]), x);
      CountsConcat([s[0]], s[1..], x);
      assert s == [s[0]] + s[1..];
    }
  }

  lemma {:induction false} CountsConcat(s: seq<int>, t: seq<int>, x: int)
    ensures Below(s + t, x) == Below(s, x) + Below(t, x)
    ensures AtMost(s + t, x) == AtMost(s, x) + AtMost(t, x)
  {
    if t == [] {
      assert s + t == s;
    } else {
      assert (s + t)[..|s + t| - 1] == s + t[..|t| - 1];
      CountsConcat(s, t[..|t| - 1], x);
    }
  }

  lemma {:induction false} SortCounts(s: seq<int>, x: int)
    ensures Below(Sort(s), x) == Below(s, x) && AtMost(Sort(s), x) == AtMost(s, x)
  {
    if s != [] {
      SortCounts(s[..|s| - 1], x);
      InsertCounts(s[|s| - 1], Sort(s[..|s| - 1]), x);
    }
  }

  lemma SortedBelow(s: seq<int>, k: nat)
    requires Sorted(s) && k < |s|
    ensures Below(s, s[k]) <= k
  {
    CountsSplit(s, k, s[k]);
    CountNone(s, k, |s|, s[k]);
    assert s[k..] == s[k..|s|];
    BelowAtMostLength(s[..k], s[k]);
  }

  lemma SortedAtMost(s: seq<int>, k: nat)
    requires Sorted(s) && k < |s|
    ensures k < AtMost(s, s[k])
  {
    CountsSplit(s, k + 1, s[k]);
    CountAll(s, k + 1, s[k]);
  }

  lemma CountsSplit(s: seq<int>, n: nat, x: int)
    requires n <= |s|
    ensures Below(s, x) == Below(s[..n], x) + Below(s[n..], x)
    ensures AtMost(s, x) == AtMost(s[..n], x) + AtMost(s[n..], x)
  {
    assert s == s[..n] + s[n..];
    CountsConcat(s[..n], s[n..], x);
  }

  lemma {:induction false} CountAll(s: seq<int>, n: nat, x: int)
    requires n <= |s| && forall i :: 0 <= i < n ==> s[i] <= x
    ensures AtMost(s[..n], x) == n
  {
    if n > 0 {
      CountAll(s, n - 1, x);
      assert s[..n][..n - 1] == s[..n - 1];
    }
  }

  lemma {:induction false} CountNone(s: seq<int>, from: nat, n: nat, x: int)
    requires from <= n <= |s| && forall i :: from <= i < n ==> x <= s[i]
    ensures Below(s[from..n], x) == 0
  {
    if n > from {
      CountNone(s, from, n - 1, x);
      assert s[from..n][..n - 1 - from] == s[from..n - 1];
    }
  }

  lemma {:induction false} BelowAtMostLength(s: seq<int>, x: int)
    ensures Below(s, x) <= |s|
  {
    if s != [] {
      BelowAtMostLength(s[..|s| - 1], x);
    }
  }

  // ---- the tracker ----

  function Min(a: nat, b: nat): nat { if a < b then a else b }

  /** The last n elements, or all. */
  function Last(s: seq<int>, n: nat): seq<int> { s[|s| - Min(n, |s|)..] }

  function Sum(s: seq<int>): int {
    if s == [] then 0 else Sum(s[..|s| - 1]) + s[|s| - 1]
  }

  /** Go's integer division: it truncates toward zero. */
  function Quotient(a: int, b: int): int
    requires b > 0
  {
    if a >= 0 then a / b else -(-a / b)
  }

  datatype Counters = Counters(totalConns: int, openConns: int, totalRequests: int, totalBytes: int, latency: int, startTime: int)

  datatype Snapshot = Snap(counters: Counters, rt1: int, rt5: int, p50: int, p90: int)

  /** The snapshot of a window; all durations are 0 as long as it is empty. */
  function SnapshotOf(c: Counters, window: seq<int>): Snapshot {
    var n := |window|;
    if n == 0 then Snap(c, 0, 0, 0, 0)
    else
      var five := Last(window, 5);
      Snap(c, window[n - 1], Quotient(Sum(five), |five|), Sort(window)[n / 2], Sort(window)[9 * n / 10])
  }

  /** The window after one more request. */
  function Record(window: seq<int>, duration: int, maxSamples: nat): seq<int> {
    (if |window| >= maxSamples && window != [] then window[1..] else window) + [duration]
  }

  class Stats {
    var counters: Counters
    var requestTimes: array<int>   // backing array of the slice
    var len: nat
    const maxSamples: nat

    ghost predicate Valid()
      reads this
    {
      0 < maxSamples && requestTimes.Length == maxSamples && len <= maxSamples
    }

    function Window(): seq<int>
      reads this, requestTimes
      requires Valid()
    {
      requestTimes[..len]
    }

    constructor (maxSamples: int, now: int)
      ensures Valid() && Window() == [] && counters == Counters(0, 0, 0, 0, 0, now) && fresh(requestTimes)
      ensures this.maxSamples == if maxSamples <= 0 then 100 else maxSamples
    {
      var size: nat := if maxSamples <= 0 then 100 else maxSamples;
      this.maxSamples := size;
      requestTimes := new int[size];
      len := 0;
      counters := Counters(0, 0, 0, 0, 0, now);
    }

    method IncrementConnections()
      modifies this`counters
      ensures counters == old(counters).(totalConns := old(counters.totalConns) + 1, openConns := old(counters.openConns) + 1)
    {
      counters := counters.(totalConns := counters.totalConns + 1, openConns := counters.openConns + 1);
    }

    method DecrementOpenConnections()
      modifies this`counters
      ensures counters == old(counters).(openConns := if old(counters.openConns) > 0 then old(counters.openConns) - 1 else old(counters.openConns))
    {
      if counters.openConns > 0 {
        counters := counters.(openConns := counters.openConns - 1);
      }
    }

    method RecordRequest(duration: int, bytes: int)
      requires Valid()
      modifies this`counters, this`len, requestTimes
      ensures Valid() && Window() == Record(old(Window()), duration, maxSamples)
      ensures counters == old(counters).(totalRequests := old(counters.totalRequests) + 1, totalBytes := old(counters.totalBytes) + bytes)
    {
      counters := counters.(totalRequests := counters.totalRequests + 1, totalBytes := counters.totalBytes + bytes);
      ghost var before := Window();
      if len >= maxSamples {
        for i := 0 to len - 1
          invariant forall j :: 0 <= j < i ==> requestTimes[j] == before[j + 1]
          invariant forall j :: i <= j < len ==> requestTimes[j] == before[j]
          modifies requestTimes
        {
          requestTimes[i] := requestTimes[i + 1];
        }
        len := len - 1;
        assert requestTimes[..len] == before[1..];
      }
      requestTimes[len] := duration;
      len := len + 1;
    }

    method Snapshot() returns (snap: Snapshot)
      requires Valid()
      ensures snap == SnapshotOf(counters, Window())
    {
      var n: int := len;
      if n == 0 {
        return Snap(counters, 0, 0, 0, 0);
      }
      var rt1 := requestTimes[n - 1];
      var count := 5;
      if n < count {
        count := n;
      }
      var sum := 0;
      ghost var five := Last(Window(), 5);
      for i := n - count to n
        invariant sum == Sum(five[..i - (n - count)])
      {
        assert five[..i + 1 - (n - count)][..i - (n - count)] == five[..i - (n - count)];
        sum := sum + requestTimes[i];
      }
      assert five[..count] == five;
      var rt5 := Quotient(sum, count);
      var sorted := Sort(requestTimes[..n]);
      SortSorts(Window());
      var p50 := sorted[n / 2];
      var p90Index: int := 9 * n / 10;
      if p90Index >= n {
        p90Index := n - 1;
      }
      var p90 := sorted[p90Index];
      snap := Snap(counters, rt1, rt5, p50, p90);
    }

    method Reset(now: int)
      requires Valid()
      modifies this`counters, this`len
      ensures Valid() && Window() == [] && counters == Counters(0, 0, 0, 0, 0, now)
    {
      counters := Counters(0, 0, 0, 0, 0, now);
      len := 0;
    }
  }

  // ---- what a snapshot shows ----

  /** The window after recording `durations` from an empty one. */
  function WindowAfter(durations: seq<int>, maxSamples: nat): seq<int> {
    if durations == [] then []
    else Record(WindowAfter(durations[..|durations| - 1], maxSamples), durations[|durations| - 1], maxSamples)
  }

  /** The shifted buffer is always the last maxSamples durations recorded. */
  lemma {:induction false} WindowIsLatest(durations: seq<int>, maxSamples: nat)
    requires 0 < maxSamples
    ensures WindowAfter(durations, maxSamples) == Last(durations, maxSamples)
  {
    if durations != [] {
      WindowIsLatest(durations[..|durations| - 1], maxSamples);
    }
  }

  /** `x` has rank `k` in the window: at most k samples are below it, and more than k are not above it. */
  ghost predicate HasRank(window: seq<int>, x: int, k: nat) {
    x in window && Below(window, x) <= k < AtMost(window, x)
  }

  lemma {:induction false} RankIsUnique(window: seq<int>, x: int, y: int, k: nat)
    requires HasRank(window, x, k) && HasRank(window, y, k)
    ensures x == y
  {
    if x < y {
      AtMostBelow(window, x, y);
    } else if y < x {
      AtMostBelow(window, y, x);
    }
  }

  lemma {:induction false} AtMostBelow(s: seq<int>, x: int, y: int)
    requires x < y
    ensures AtMost(s, x) <= Below(s, y)
  {
    if s != [] {
      AtMostBelow(s[..|s| - 1], x, y);
    }
  }

  /** The element at index `k` of the sorted window has rank `k` in the window. */
  lemma SortedIndexIsRank(window: seq<int>, k: nat)
    requires k < |window|
    ensures HasRank(window, Sort(window)[k], k)
  {
    var sorted := Sort(window);
    SortSorts(window);
    SortedBelow(sorted, k);
    SortedAtMost(sorted, k);
    SortCounts(window, sorted[k]);
    assert sorted[k] in multiset(sorted);
  }

  /** What is left of a division has the sign of the dividend. */
  lemma QuotientTruncates(a: int, b: int)
    requires b > 0
    ensures var rest := a - Quotient(a, b) * b; if a >= 0 then 0 <= rest < b else -b < rest <= 0
  {
    if a < 0 {
      assert -a == (-a / b) * b + -a % b;
    } else {
      assert a == (a / b) * b + a % b;
    }
  }

  /**
   The percentiles are samples of ranks n/2 and floor(9n/10), whatever sorts the copy; they are in order,
   and RT1 and RT5 are the latest sample and the mean of the latest five, truncated toward zero. All
   durations are 0 as long as nothing was recorded.
   */
  lemma SnapshotShowsRanks(c: Counters, window: seq<int>)
    ensures window == [] ==> SnapshotOf(c, window) == Snap(c, 0, 0, 0, 0)
    ensures window != [] ==>
              var s := SnapshotOf(c, window); var n := |window|; var m := if n < 5 then n else 5;
              var rest := Sum(window[n - m..]) - s.rt5 * m;
              && s.counters == c
              && HasRank(window, s.p50, n / 2) && HasRank(window, s.p90, 9 * n / 10) && s.p50 <= s.p90
              && s.rt1 == window[n - 1]
              && -m < rest < m
              && (if Sum(window[n - m..]) >= 0 then rest >= 0 else rest <= 0)
  {
    if window != [] {
      SortSorts(window);
      SortedIndexIsRank(window, |window| / 2);
      SortedIndexIsRank(window, 9 * |window| / 10);
      QuotientTruncates(Sum(Last(window, 5)), Min(5, |window|));
    }
  }

  /** Any sorting routine yields the same percentiles. */
  lemma SortingRoutineIsIrrelevant(window: seq<int>, other: seq<int>)
    requires Sorted(other) && multiset(other) == multiset(window)
    ensures other == Sort(window)
  {
    SortSorts(window);
    SortedPermutationIsUnique(other, Sort(window));
  }
}
