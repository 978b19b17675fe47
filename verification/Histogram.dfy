/**
 The histogram of internal/metrics/metrics.go: a counter, a sum kept by compare-and-swap and cumulative
 buckets, all atomics that any number of observers update at once. Reals stand for floats.
 */
module Histogram {
  /** Whether `v` counts in bucket `i`; the bucket after the last bound is +Inf. */
  predicate Hits(buckets: seq<real>, v: real, i: nat)
    requires i <= |buckets|
  {
    i == |buckets| || v <= buckets[i]
  }

  function Added(interference: seq<real>): real {
    if interference == [] then 0.0 else Added(interference[..|interference| - 1]) + interference[|interference| - 1]
  }

  class Histogram {
    const buckets: seq<real>
    const counts: array<nat>       // one more than buckets: the last is +Inf
    var count: nat
    var sum: real

    ghost predicate Valid() { counts.Length == |buckets| + 1 }

    constructor (buckets: seq<real>)
      ensures Valid() && this.buckets == buckets && count == 0 && sum == 0.0 && fresh(counts)
      ensures forall i :: 0 <= i < counts.Length ==> counts[i] == 0
    {
      this.buckets := buckets;
      counts := new nat[|buckets| + 1](_ => 0);
      count := 0;
      sum := 0.0;
    }

    method CompareAndSwap(expected: real, value: real) returns (swapped: bool)
      modifies this`sum
      ensures swapped <==> old(sum) == expected
      ensures sum == if swapped then value else old(sum)
    {
      swapped := sum == expected;
      if swapped {
        sum := value;
      }
    }

    /**
     `Observe`, when between its load and its compare-and-swap others add `interference[k]` to the sum in
     the k-th round. It ends, for the rounds only fail while others succeed; and it adds `v` exactly once.
     */
    method Observe(v: real, interference: seq<real>) returns (rounds: nat)
      requires Valid()
      modifies this`count, this`sum, counts
      ensures count == old(count) + 1
      ensures rounds <= |interference| + 1
      ensures rounds <= |interference| ==> sum == old(sum) + v + Added(interference[..rounds])
      ensures rounds == |interference| + 1 ==> sum == old(sum) + v + Added(interference)
      ensures forall i :: 0 <= i < |buckets| ==> counts[i] == old(counts[i]) + if v <= buckets[i] then 1 else 0
      ensures counts[|buckets|] == old(counts[|buckets|]) + 1
    {
      count := count + 1;
      rounds := 0;
      var swapped := false;
      while !swapped
        invariant rounds <= |interference| + 1 && (rounds == |interference| + 1 ==> swapped)
        invariant var k := if rounds <= |interference| then rounds else |interference|;
                  sum == old(sum) + Added(interference[..k]) + if swapped then v else 0.0
        modifies this`sum
        decreases |interference| + 1 - rounds, !swapped
      {
        var oldVal := sum;
        if rounds < |interference| {
          assert interference[..rounds + 1][..rounds] == interference[..rounds];
          sum := sum + interference[rounds];
        }
        swapped := CompareAndSwap(oldVal, oldVal + v);
        rounds := rounds + 1;
      }
      assert interference[..|interference|] == interference;
      for i := 0 to |buckets|
        invariant forall j :: 0 <= j < i ==> counts[j] == old(counts[j]) + if v <= buckets[j] then 1 else 0
        invariant forall j :: i <= j <= |buckets| ==> counts[j] == old(counts[j])
        modifies counts
      {
        if v <= buckets[i] {
          counts[i] := counts[i] + 1;
        }
      }
      counts[|buckets|] := counts[|buckets|] + 1;
    }
  }
}

/** Any number of observers on one histogram, interleaved atomic by atomic. */
module HistogramRuns {
  import opened Sums
  import opened Histogram

  /** An observer past its increment of `count`; `Filling(i)` is about to look at bucket `i`, the last being +Inf. */
  datatype Phase = Counted | Loaded(seen: real) | Filling(i: nat) | Finished

  datatype Observer = Observer(v: real, phase: Phase)

  datatype State = State(buckets: seq<real>, count: int, sum: real, counts: seq<int>, observers: seq<Observer>)

  datatype Event = Observe(v: real) | Run(id: nat)

  function Next(s: State, e: Event): State
    requires |s.counts| == |s.buckets| + 1
  {
    match e
    case Observe(v) => s.(count := s.count + 1, observers := s.observers + [Observer(v, Counted)])
    case Run(id) => if id < |s.observers| then Step(s, id) else s
  }

  /** The next atomic operation of an observer. */
  function Step(s: State, id: nat): State
    requires id < |s.observers| && |s.counts| == |s.buckets| + 1
  {
    var o := s.observers[id];
    match o.phase
    case Counted => s.(observers := s.observers[id := o.(phase := Loaded(s.sum))])
    case Loaded(seen) =>
      if s.sum == seen then s.(sum := seen + o.v, observers := s.observers[id := o.(phase := Filling(0))])
      else s.(observers := s.observers[id := o.(phase := Counted)])
    case Filling(i) =>
      if i > |s.buckets| then s
      else
        s.(counts := if Hits(s.buckets, o.v, i) then s.counts[i := s.counts[i] + 1] else s.counts,
           observers := s.observers[id := o.(phase := if i < |s.buckets| then Filling(i + 1) else Finished)])
    case Finished => s
  }

  function Start(buckets: seq<real>): State {
    State(buckets, 0, 0.0, seq(|buckets| + 1, _ => 0), [])
  }

  function After(buckets: seq<real>, es: seq<Event>): (s: State)
    ensures s.buckets == buckets && |s.counts| == |buckets| + 1
  {
    if es == [] then Start(buckets) else Next(After(buckets, es[..|es| - 1]), es[|es| - 1])
  }

  // ---- one observer ----

  function Left(s: State, id: nat): nat
    requires id < |s.observers|
  {
    match s.observers[id].phase
    case Counted => |s.buckets| + 5
    case Loaded(seen) => |s.buckets| + if s.sum == seen then 4 else 6
    case Filling(i) => if i <= |s.buckets| then |s.buckets| + 1 - i else 0
    case Finished => 0
  }

  /** Observer `id` moves, and nobody else does, until it is done. */
  function Alone(s: State, id: nat): State
    requires id < |s.observers| && |s.counts| == |s.buckets| + 1
    decreases Left(s, id)
  {
    if Left(s, id) == 0 then s else Alone(Step(s, id), id)
  }

  lemma {:induction false} AloneFills(s: State, id: nat, i: nat)
    requires id < |s.observers| && |s.counts| == |s.buckets| + 1 && i <= |s.buckets|
    requires s.observers[id].phase == Filling(i)
    ensures var s' := Alone(s, id); var v := s.observers[id].v;
            && s'.buckets == s.buckets && s'.count == s.count && s'.sum == s.sum && |s'.counts| == |s.counts|
            && s'.observers == s.observers[id := Observer(v, Finished)]
            && (forall j :: 0 <= j <= |s.buckets| ==>
                  s'.counts[j] == s.counts[j] + if i <= j && Hits(s.buckets, v, j) then 1 else 0)
    decreases |s.buckets| - i
  {
    var next := Step(s, id);
    if i < |s.buckets| {
      AloneFills(next, id, i + 1);
    } else {
      assert Alone(next, id) == next;
    }
  }

  /** An observation that is not disturbed leaves the histogram as `Observe` does when nobody interferes. */
  lemma AloneIsObserve(s: State, v: real)
    requires |s.counts| == |s.buckets| + 1
    ensures var s' := Alone(Next(s, Observe(v)), |s.observers|);
            && s'.count == s.count + 1 && s'.sum == s.sum + v && |s'.counts| == |s.counts|
            && (forall i :: 0 <= i < |s.buckets| ==> s'.counts[i] == s.counts[i] + if v <= s.buckets[i] then 1 else 0)
            && s'.counts[|s.buckets|] == s.counts[|s.buckets|] + 1
            && s'.observers == s.observers + [Observer(v, Finished)]
  {
    var id := |s.observers|;
    var s1 := Next(s, Observe(v));
    var s2 := Step(s1, id);
    var s3 := Step(s2, id);
    assert Alone(s1, id) == Alone(s2, id) == Alone(s3, id);
    AloneFills(s3, id, 0);
    assert s3.observers[id := Observer(v, Finished)] == s.observers + [Observer(v, Finished)];
  }

  /** Whether the next operation of an observer is a compare-and-swap that succeeds. */
  predicate SwapsNext(s: State, id: nat) {
    id < |s.observers| && s.observers[id].phase == Loaded(s.sum)
  }

  lemma {:induction false} SumMovesBySwapsOnly(buckets: seq<real>, es: seq<Event>, m: nat)
    requires m <= |es|
    requires forall x :: m <= x < |es| && es[x].Run? ==> !SwapsNext(After(buckets, es[..x]), es[x].id)
    ensures After(buckets, es).sum == After(buckets, es[..m]).sum
  {
    if m == |es| {
      assert es[..m] == es;
    } else {
      var front := es[..|es| - 1];
      assert forall x :: 0 <= x <= |front| ==> front[..x] == es[..x];
      SumMovesBySwapsOnly(buckets, front, m);
    }
  }

  /**
   Lock-freedom: a compare-and-swap fails only if another one has succeeded since the load, so some
   observation always gets on.
   */
  lemma FailureMeansProgress(buckets: seq<real>, es: seq<Event>, load: nat, id: nat)
    requires load < |es| && es[load] == Run(id) && id < |After(buckets, es[..load]).observers|
    requires After(buckets, es[..load]).observers[id].phase.Counted?
    requires id < |After(buckets, es).observers|
    requires After(buckets, es).observers[id].phase == Loaded(After(buckets, es[..load]).sum)
    requires !SwapsNext(After(buckets, es), id)
    ensures exists x :: load < x < |es| && es[x].Run? && SwapsNext(After(buckets, es[..x]), es[x].id)
  {
    assert es[..load + 1][..load] == es[..load];
    if forall x :: load < x < |es| && es[x].Run? ==> !SwapsNext(After(buckets, es[..x]), es[x].id) {
      SumMovesBySwapsOnly(buckets, es, load + 1);
      assert false;
    }
  }

  // ---- what the observers have contributed ----

  predicate Summed(o: Observer) { o.phase.Filling? || o.phase.Finished? }

  predicate PastBucket(o: Observer, i: nat) {
    o.phase.Finished? || (o.phase.Filling? && i < o.phase.i)
  }

  /** 1 if the observer has counted itself in bucket `i`. */
  function CountedIn(buckets: seq<real>, i: nat): Observer -> int
    requires i <= |buckets|
  {
    (o: Observer) => if PastBucket(o, i) && Hits(buckets, o.v, i) then 1 else 0
  }

  /** 1 if the observed value is at most `bound`. */
  function AtMost(bound: real): Observer -> int {
    (o: Observer) => if o.v <= bound then 1 else 0
  }

  function Running(o: Observer): int { if o.phase.Finished? then 0 else 1 }

  function One(o: Observer): int { 1 }

  /** The sum of the values of the observers whose compare-and-swap has succeeded. */
  function SumOfValues(os: seq<Observer>): real {
    if os == [] then 0.0
    else SumOfValues(os[..|os| - 1]) + if Summed(os[|os| - 1]) then os[|os| - 1].v else 0.0
  }

  lemma {:induction false} SumOfValuesUpdate(os: seq<Observer>, id: nat, o: Observer)
    requires id < |os| && o.v == os[id].v
    ensures SumOfValues(os[id := o]) ==
              SumOfValues(os) - (if Summed(os[id]) then o.v else 0.0) + (if Summed(o) then o.v else 0.0)
  {
    var n := |os| - 1;
    if id == n {
      assert os[id := o][..n] == os[..n];
    } else {
      assert os[id := o][..n] == os[..n][id := o];
      SumOfValuesUpdate(os[..n], id, o);
    }
  }

  ghost predicate Inv(s: State) {
    && |s.counts| == |s.buckets| + 1
    && s.count == |s.observers|
    && s.sum == SumOfValues(s.observers)
    && (forall i :: 0 <= i <= |s.buckets| ==> s.counts[i] == SumBy(s.observers, CountedIn(s.buckets, i)))
    && (forall o :: o in s.observers && o.phase.Filling? ==> o.phase.i <= |s.buckets|)
  }

  lemma StepKeepsSum(s: State, id: nat)
    requires id < |s.observers| && Inv(s)
    ensures Step(s, id).sum == SumOfValues(Step(s, id).observers)
  {
    var s' := Step(s, id);
    if s'.observers != s.observers {
      SumOfValuesUpdate(s.observers, id, s'.observers[id]);
      assert s'.observers == s.observers[id := s'.observers[id]];
    }
  }

  lemma StepKeepsCount(s: State, id: nat, i: nat)
    requires id < |s.observers| && Inv(s) && i <= |s.buckets|
    ensures Step(s, id).counts[i] == SumBy(Step(s, id).observers, CountedIn(s.buckets, i))
  {
    var s' := Step(s, id);
    assert s.observers[id] in s.observers;
    SumByUpdate(s.observers, id, s'.observers[id], CountedIn(s.buckets, i));
    assert s'.observers == s.observers[id := s'.observers[id]];
  }

  lemma NextKeepsInv(s: State, e: Event)
    requires Inv(s)
    ensures Inv(Next(s, e))
  {
    var s' := Next(s, e);
    match e
    case Observe(v) =>
      var o := Observer(v, Counted);
      assert (s.observers + [o])[..|s.observers|] == s.observers;
      forall i | 0 <= i <= |s.buckets|
        ensures s'.counts[i] == SumBy(s'.observers, CountedIn(s.buckets, i))
      {
        SumByAppend(s.observers, o, CountedIn(s.buckets, i));
      }
    case Run(id) =>
      if id < |s.observers| {
        StepKeepsSum(s, id);
        forall i | 0 <= i <= |s.buckets|
          ensures s'.counts[i] == SumBy(s'.observers, CountedIn(s.buckets, i))
        {
          StepKeepsCount(s, id, i);
        }
        assert s.observers[id] in s.observers;
      }
  }

  lemma {:induction false} RunKeepsInv(buckets: seq<real>, es: seq<Event>)
    ensures Inv(After(buckets, es))
  {
    if es != [] {
      RunKeepsInv(buckets, es[..|es| - 1]);
      NextKeepsInv(After(buckets, es[..|es| - 1]), es[|es| - 1]);
    }
  }

  lemma {:induction false} SumOfOnes(os: seq<Observer>)
    ensures SumBy(os, One) == |os|
  {
    if os != [] {
      SumOfOnes(os[..|os| - 1]);
    }
  }

  /** In every interleaving `count` is ahead of the +Inf bucket by exactly the observations in flight. */
  lemma InfLagsByInFlight(buckets: seq<real>, es: seq<Event>)
    ensures var s := After(buckets, es); s.count - s.counts[|buckets|] == SumBy(s.observers, Running)
  {
    RunKeepsInv(buckets, es);
    var s := After(buckets, es);
    var os, n := s.observers, |buckets|;
    SumOfOnes(os);
    forall i | 0 <= i < |os|
      ensures One(os[i]) == CountedIn(buckets, n)(os[i]) + Running(os[i])
    {
      assert os[i] in os;
    }
    SumByPlus(os, One, CountedIn(buckets, n), Running);
  }

  ghost predicate Sorted(buckets: seq<real>) {
    forall i, j :: 0 <= i < j < |buckets| ==> buckets[i] <= buckets[j]
  }

  function CountedOrRunning(buckets: seq<real>, i: nat): Observer -> int
    requires i <= |buckets|
  {
    (o: Observer) => CountedIn(buckets, i)(o) + Running(o)
  }

  /** For sorted bounds the buckets are cumulative, up to the observations in flight. */
  lemma BucketsAreCumulative(buckets: seq<real>, es: seq<Event>, i: nat)
    requires Sorted(buckets) && i < |buckets|
    ensures var s := After(buckets, es); s.counts[i] <= s.counts[i + 1] + SumBy(s.observers, Running)
  {
    RunKeepsInv(buckets, es);
    var os := After(buckets, es).observers;
    SumByLe(os, CountedIn(buckets, i), CountedOrRunning(buckets, i + 1));
    SumByPlus(os, CountedOrRunning(buckets, i + 1), CountedIn(buckets, i + 1), Running);
  }

  /** The sum holds each observation whose compare-and-swap has succeeded exactly once, whatever the races. */
  lemma SumIsExact(buckets: seq<real>, es: seq<Event>)
    ensures After(buckets, es).sum == SumOfValues(After(buckets, es).observers)
  {
    RunKeepsInv(buckets, es);
  }

  /** At rest every bucket is the number of observations up to its bound, and +Inf and `count` the number of all. */
  lemma AtRestCountsAreExact(buckets: seq<real>, es: seq<Event>)
    requires forall o :: o in After(buckets, es).observers ==> o.phase.Finished?
    ensures var s := After(buckets, es);
            && (forall i :: 0 <= i < |buckets| ==> s.counts[i] == SumBy(s.observers, AtMost(buckets[i])))
            && s.count == |s.observers| == s.counts[|buckets|]
  {
    RunKeepsInv(buckets, es);
    var os := After(buckets, es).observers;
    forall j | 0 <= j < |os|
      ensures os[j].phase.Finished?
    {
      assert os[j] in os;
    }
    forall i | 0 <= i < |buckets|
      ensures SumBy(os, CountedIn(buckets, i)) == SumBy(os, AtMost(buckets[i]))
    {
      SumByLe(os, CountedIn(buckets, i), AtMost(buckets[i]));
      SumByLe(os, AtMost(buckets[i]), CountedIn(buckets, i));
    }
    SumOfOnes(os);
    SumByLe(os, One, CountedIn(buckets, |buckets|));
    SumByLe(os, CountedIn(buckets, |buckets|), One);
  }
}
