/**
 The two reconnect loops of internal/client/tunnel: `SharedTunnel.StartWithReconnect` (shared.go) and
 `Tunnel.StartWithReconnect` (reconnect.go). Delays are whole nanoseconds. What multiplying one by the
 configured factor gives, rounding included, is a function of the configuration; with a real factor it is
 `ByFactor`.
 */
module Reconnect {
  import opened Options

  datatype Config = Config(initialDelay: int, maxDelay: int, scaled: int -> int, maxAttempts: int)

  const SECOND: int := 1_000_000_000

  const DEFAULT_CONFIG: Config := Config(1 * SECOND, 60 * SECOND, ByFactor(2.0), 0)

  datatype Outcome = Success | AlreadyConnected | Failure

  /** One round of a loop: when its context is cancelled, if so, and how `Start` ends. */
  datatype Round = Round(cancelledBefore: bool, outcome: Outcome, cancelledAfter: bool, cancelledInWait: bool)

  datatype Exit = Connected | Cancelled | Conflict | GaveUp | Running

  /** How a loop ends, how often it called `Start`, and the waits it began. */
  datatype Trace = Trace(exit: Exit, starts: nat, waits: seq<int>)

  /** Conversion to an integer duration truncates toward zero. */
  function Truncate(x: real): int {
    if x >= 0.0 then x.Floor else -((-x).Floor)
  }

  function Scale(delay: int, m: real): int { Truncate(delay as real * m) }

  function ByFactor(m: real): int -> int {
    (delay: int) => Scale(delay, m)
  }

  function NextDelay(c: Config, delay: int): int {
    if c.scaled(delay) > c.maxDelay then c.maxDelay else c.scaled(delay)
  }

  function OrDefault(config: Option<Config>): Config {
    if config.None? then DEFAULT_CONFIG else config.value
  }

  /** The delay after k failures in a row. */
  function Delay(c: Config, k: nat): int {
    if k == 0 then c.initialDelay else NextDelay(c, Delay(c, k - 1))
  }

  function Delays(c: Config, from: nat, n: nat): seq<int> {
    seq(n, i requires 0 <= i < n => Delay(c, from + i))
  }

  /** A trace after some starts and waits. */
  function Then(starts: nat, waits: seq<int>, t: Trace): Trace {
    Trace(t.exit, starts + t.starts, waits + t.waits)
  }

  lemma ThenThen(s1: nat, w1: seq<int>, s2: nat, w2: seq<int>, t: Trace)
    ensures Then(s1, w1, Then(s2, w2, t)) == Then(s1 + s2, w1 + w2, t)
  {
  }

  /** The shared tunnel's loop from `attempt` and `delay` on. */
  function SharedLoop(c: Config, attempt: nat, delay: int, rounds: seq<Round>): Trace
    decreases |rounds|
  {
    if rounds == [] then Trace(Running, 0, [])
    else
      var r := rounds[0];
      if r.cancelledBefore then Trace(Cancelled, 0, [])
      else if r.outcome == Success then Trace(Connected, 1, [])
      else if r.cancelledAfter then Trace(Cancelled, 1, [])
      else if r.outcome == AlreadyConnected then Trace(Conflict, 1, [])
      else if c.maxAttempts > 0 && attempt + 1 >= c.maxAttempts then Trace(GaveUp, 1, [])
      else if r.cancelledInWait then Trace(Cancelled, 1, [delay])
      else
        Then(1, [delay], SharedLoop(c, attempt + 1, NextDelay(c, delay), rounds[1..]))
  }

  /** The single tunnel's loop from `attempt` and `delay` on. */
  function TunnelLoop(c: Config, attempt: nat, delay: int, rounds: seq<Round>): Trace
    decreases |rounds|
  {
    if rounds == [] then Trace(Running, 0, [])
    else
      var r := rounds[0];
      var waits := if attempt > 0 then [delay] else [];
      if r.cancelledBefore then Trace(Cancelled, 0, [])
      else if c.maxAttempts > 0 && attempt + 1 > c.maxAttempts then Trace(GaveUp, 0, [])
      else if attempt > 0 && r.cancelledInWait then Trace(Cancelled, 0, waits)
      else
        match r.outcome
        case AlreadyConnected => Trace(Conflict, 1, waits)
        case Failure => Then(1, waits, TunnelLoop(c, attempt + 1, NextDelay(c, delay), rounds[1..]))
        case Success => Then(1, waits, TunnelLoop(c, 0, c.initialDelay, rounds[1..]))
  }

  /** The loop of the shared tunnel, over the rounds the network and the context make of it. */
  method SharedStartWithReconnect(config: Option<Config>, rounds: seq<Round>)
    returns (exit: Exit, starts: nat, waits: seq<int>)
    ensures Trace(exit, starts, waits) == SharedLoop(OrDefault(config), 0, OrDefault(config).initialDelay, rounds)
  {
    var c := OrDefault(config);
    var attempt := 0;
    var delay := c.initialDelay;
    starts, waits := 0, [];
    ghost var all := SharedLoop(c, 0, delay, rounds);
    var i := 0;
    assert rounds[0..] == rounds;
    while i < |rounds|
      invariant 0 <= i <= |rounds| && attempt == starts
      invariant all == Then(starts, waits, SharedLoop(c, attempt, delay, rounds[i..]))
    {
      var r := rounds[i];
      assert rounds[i..][0] == r && rounds[i..][1..] == rounds[i + 1..];
      if r.cancelledBefore {
        return Cancelled, starts, waits;
      }
      attempt := attempt + 1;
      starts := starts + 1;
      if r.outcome == Success {
        return Connected, starts, waits;
      }
      if r.cancelledAfter {
        return Cancelled, starts, waits;
      }
      if r.outcome == AlreadyConnected {
        return Conflict, starts, waits;
      }
      if c.maxAttempts > 0 && attempt >= c.maxAttempts {
        return GaveUp, starts, waits;
      }
      if r.cancelledInWait {
        return Cancelled, starts, waits + [delay];
      }
      ThenThen(starts - 1, waits, 1, [delay], SharedLoop(c, attempt, NextDelay(c, delay), rounds[i + 1..]));
      waits := waits + [delay];
      delay := NextDelay(c, delay);
      i := i + 1;
    }
    exit := Running;
  }

  /** The loop of the single tunnel: it waits before the attempt, not after, and starts over after a success. */
  method TunnelStartWithReconnect(config: Option<Config>, rounds: seq<Round>)
    returns (exit: Exit, starts: nat, waits: seq<int>)
    ensures Trace(exit, starts, waits) == TunnelLoop(OrDefault(config), 0, OrDefault(config).initialDelay, rounds)
  {
    var c := OrDefault(config);
    var attempt := 0;
    var delay := c.initialDelay;
    starts, waits := 0, [];
    ghost var all := TunnelLoop(c, 0, delay, rounds);
    var i := 0;
    assert rounds[0..] == rounds;
    while i < |rounds|
      invariant 0 <= i <= |rounds| && 0 <= attempt
      invariant all == Then(starts, waits, TunnelLoop(c, attempt, delay, rounds[i..]))
    {
      var r := rounds[i];
      assert rounds[i..][0] == r && rounds[i..][1..] == rounds[i + 1..];
      i := i + 1;
      if r.cancelledBefore {
        return Cancelled, starts, waits;
      }
      attempt := attempt + 1;
      if c.maxAttempts > 0 && attempt > c.maxAttempts {
        return GaveUp, starts, waits;
      }
      var wait := if attempt > 1 then [delay] else [];
      if attempt > 1 && r.cancelledInWait {
        return Cancelled, starts, waits + wait;
      }
      if r.outcome == AlreadyConnected {
        return Conflict, starts + 1, waits + wait;
      }
      if r.outcome == Failure {
        delay := NextDelay(c, delay);
      } else {
        attempt := 0;
        delay := c.initialDelay;
      }
      ThenThen(starts, waits, 1, wait, TunnelLoop(c, attempt, delay, rounds[i..]));
      starts := starts + 1;
      waits := waits + wait;
    }
    exit := Running;
  }

  // ---- every run of the single tunnel, round by round ----

  /** How many rounds in a row before round `n` failed: since the last success, or from the start. */
  function FailuresBefore(rounds: seq<Round>, n: nat): nat
    requires n <= |rounds|
  {
    if n == 0 || rounds[n - 1].outcome != Failure then 0 else 1 + FailuresBefore(rounds, n - 1)
  }

  /** The wait before the start of round `n`: the delay after those failures, and none after a success. */
  function WaitBefore(c: Config, rounds: seq<Round>, n: nat): seq<int>
    requires n <= |rounds|
  {
    var failures := FailuresBefore(rounds, n);
    if failures == 0 then [] else [Delay(c, failures)]
  }

  /** The waits before the starts of the first `n` rounds. */
  function WaitsUpTo(c: Config, rounds: seq<Round>, n: nat): seq<int>
    requires n <= |rounds|
  {
    if n == 0 then [] else WaitsUpTo(c, rounds, n - 1) + WaitBefore(c, rounds, n - 1)
  }

  predicate OutOfAttempts(c: Config, rounds: seq<Round>, n: nat)
    requires n <= |rounds|
  {
    c.maxAttempts > 0 && FailuresBefore(rounds, n) >= c.maxAttempts
  }

  /** The loop ends in round `n`, if it gets there. */
  predicate TunnelEnds(c: Config, rounds: seq<Round>, n: nat)
    requires n < |rounds|
  {
    || rounds[n].cancelledBefore || OutOfAttempts(c, rounds, n)
    || (FailuresBefore(rounds, n) > 0 && rounds[n].cancelledInWait)
    || rounds[n].outcome == AlreadyConnected
  }

  /** It gets to round `n`. */
  ghost predicate TunnelReaches(c: Config, rounds: seq<Round>, n: nat) {
    n <= |rounds| && forall i :: 0 <= i < n ==> !TunnelEnds(c, rounds, i)
  }

  /** What is left of the loop at round `n` is what the failures before it make of attempt and delay. */
  lemma {:induction false} TunnelAtRound(c: Config, rounds: seq<Round>, n: nat)
    requires TunnelReaches(c, rounds, n)
    ensures var f := FailuresBefore(rounds, n);
            TunnelLoop(c, 0, c.initialDelay, rounds) == Then(n, WaitsUpTo(c, rounds, n), TunnelLoop(c, f, Delay(c, f), rounds[n..]))
  {
    if n == 0 {
      assert rounds[0..] == rounds;
    } else {
      var m := n - 1;
      var f, f' := FailuresBefore(rounds, m), FailuresBefore(rounds, n);
      TunnelAtRound(c, rounds, m);
      assert !TunnelEnds(c, rounds, m);
      assert rounds[m..][0] == rounds[m] && rounds[m..][1..] == rounds[n..];
      ThenThen(m, WaitsUpTo(c, rounds, m), 1, WaitBefore(c, rounds, m), TunnelLoop(c, f', Delay(c, f'), rounds[n..]));
    }
  }

  /**
   The whole trace of the single tunnel. It goes on until the first round that ends it: one that is cancelled
   before the attempt or in the wait for it, one after maxAttempts failures in a row, or one that finds the
   user already connected. Each start is preceded by the delay after the failures since the last success, and
   the one after a success by none.
   */
  lemma TunnelTrace(c: Config, rounds: seq<Round>, n: nat)
    requires TunnelReaches(c, rounds, n) && (n < |rounds| ==> TunnelEnds(c, rounds, n))
    ensures var t, waits := TunnelLoop(c, 0, c.initialDelay, rounds), WaitsUpTo(c, rounds, n);
            if n == |rounds| then t == Trace(Running, n, waits)
            else if rounds[n].cancelledBefore then t == Trace(Cancelled, n, waits)
            else if OutOfAttempts(c, rounds, n) then t == Trace(GaveUp, n, waits)
            else if FailuresBefore(rounds, n) > 0 && rounds[n].cancelledInWait then
              t == Trace(Cancelled, n, waits + WaitBefore(c, rounds, n))
            else t == Trace(Conflict, n + 1, waits + WaitBefore(c, rounds, n))
  {
    TunnelAtRound(c, rounds, n);
    var waits := WaitsUpTo(c, rounds, n);
    assert waits + [] == waits;
    if n < |rounds| {
      assert rounds[n..][0] == rounds[n];
    }
  }

  lemma {:induction false} TunnelEndsSomewhere(c: Config, rounds: seq<Round>, m: nat) returns (n: nat)
    requires TunnelReaches(c, rounds, m)
    ensures TunnelReaches(c, rounds, n) && (n < |rounds| ==> TunnelEnds(c, rounds, n))
    decreases |rounds| - m
  {
    if m < |rounds| && !TunnelEnds(c, rounds, m) {
      n := TunnelEndsSomewhere(c, rounds, m + 1);
    } else {
      n := m;
    }
  }

  /** It never ends connected; it gives up only after maxAttempts failures in a row, and with a conflict only at one. */
  lemma TunnelExits(c: Config, rounds: seq<Round>)
    ensures var t := TunnelLoop(c, 0, c.initialDelay, rounds);
            && t.exit != Connected && t.starts <= |rounds|
            && (t.exit == GaveUp ==>
                  && 0 < c.maxAttempts <= t.starts < |rounds|
                  && forall i :: t.starts - c.maxAttempts <= i < t.starts ==> rounds[i].outcome == Failure)
            && (t.exit == Conflict <==> t.starts > 0 && rounds[t.starts - 1].outcome == AlreadyConnected)
  {
    var n := TunnelEndsSomewhere(c, rounds, 0);
    TunnelTrace(c, rounds, n);
    FailuresInARow(rounds, n);
    assert n > 0 ==> !TunnelEnds(c, rounds, n - 1);
  }

  lemma {:induction false} FailuresInARow(rounds: seq<Round>, n: nat)
    requires n <= |rounds|
    ensures FailuresBefore(rounds, n) <= n
    ensures forall i :: n - FailuresBefore(rounds, n) <= i < n ==> rounds[i].outcome == Failure
    ensures FailuresBefore(rounds, n) < n ==> rounds[n - FailuresBefore(rounds, n) - 1].outcome != Failure
  {
    if n > 0 && rounds[n - 1].outcome == Failure {
      FailuresInARow(rounds, n - 1);
    }
  }

  // ---- every run of the shared tunnel ----

  /** The loop ends in round `n`, if it gets there. */
  predicate SharedEnds(c: Config, rounds: seq<Round>, n: nat)
    requires n < |rounds|
  {
    var r := rounds[n];
    r.cancelledBefore || r.outcome != Failure || r.cancelledAfter || (c.maxAttempts > 0 && n + 1 >= c.maxAttempts) || r.cancelledInWait
  }

  ghost predicate SharedReaches(c: Config, rounds: seq<Round>, n: nat) {
    n <= |rounds| && forall i :: 0 <= i < n ==> !SharedEnds(c, rounds, i)
  }

  lemma {:induction false} SharedAtRound(c: Config, rounds: seq<Round>, n: nat)
    requires SharedReaches(c, rounds, n)
    ensures SharedLoop(c, 0, c.initialDelay, rounds) == Then(n, Delays(c, 0, n), SharedLoop(c, n, Delay(c, n), rounds[n..]))
  {
    if n == 0 {
      assert rounds[0..] == rounds;
    } else {
      var m := n - 1;
      SharedAtRound(c, rounds, m);
      assert !SharedEnds(c, rounds, m);
      assert rounds[m..][0] == rounds[m] && rounds[m..][1..] == rounds[n..];
      assert Delays(c, 0, m) + [Delay(c, m)] == Delays(c, 0, n);
      ThenThen(m, Delays(c, 0, m), 1, [Delay(c, m)], SharedLoop(c, n, Delay(c, n), rounds[n..]));
    }
  }

  /**
   The whole trace of the shared tunnel. It starts once in each round, waits the k-th delay after the k-th
   failure, and ends at the first success, conflict or cancellation, or with the last failure it may have.
   */
  lemma SharedTrace(c: Config, rounds: seq<Round>, n: nat)
    requires SharedReaches(c, rounds, n) && (n < |rounds| ==> SharedEnds(c, rounds, n))
    ensures var t, waits := SharedLoop(c, 0, c.initialDelay, rounds), Delays(c, 0, n);
            if n == |rounds| then t == Trace(Running, n, waits)
            else if rounds[n].cancelledBefore then t == Trace(Cancelled, n, waits)
            else if rounds[n].outcome == Success then t == Trace(Connected, n + 1, waits)
            else if rounds[n].cancelledAfter then t == Trace(Cancelled, n + 1, waits)
            else if rounds[n].outcome == AlreadyConnected then t == Trace(Conflict, n + 1, waits)
            else if c.maxAttempts > 0 && n + 1 >= c.maxAttempts then t == Trace(GaveUp, n + 1, waits)
            else t == Trace(Cancelled, n + 1, Delays(c, 0, n + 1))
  {
    SharedAtRound(c, rounds, n);
    var waits := Delays(c, 0, n);
    assert waits + [] == waits && waits + [Delay(c, n)] == Delays(c, 0, n + 1);
    if n < |rounds| {
      assert rounds[n..][0] == rounds[n];
    }
  }

  // ---- persistent failure ----

  predicate KeepsFailing(rounds: seq<Round>) {
    forall r :: r in rounds ==> r == Round(false, Failure, false, false)
  }

  /** The k-th wait of the shared tunnel is the k-th delay, and it calls `Start` exactly maxAttempts times. */
  lemma {:induction false} SharedUnderFailure(c: Config, attempt: nat, rounds: seq<Round>)
    requires KeepsFailing(rounds)
    requires c.maxAttempts > 0 ==> attempt < c.maxAttempts
    ensures var t := SharedLoop(c, attempt, Delay(c, attempt), rounds); var left := c.maxAttempts - attempt;
            if c.maxAttempts > 0 && |rounds| >= left then t == Trace(GaveUp, left, Delays(c, attempt, left - 1))
            else t == Trace(Running, |rounds|, Delays(c, attempt, |rounds|))
    decreases |rounds|
  {
    if rounds != [] {
      assert rounds[0] in rounds;
      assert forall r :: r in rounds[1..] ==> r in rounds;
      var n := if c.maxAttempts > 0 && |rounds| >= c.maxAttempts - attempt then c.maxAttempts - attempt - 1 else |rounds|;
      if !(c.maxAttempts > 0 && attempt + 1 >= c.maxAttempts) {
        SharedUnderFailure(c, attempt + 1, rounds[1..]);
        assert Delays(c, attempt, n) == [Delay(c, attempt)] + Delays(c, attempt + 1, n - 1);
      }
    }
  }

  lemma {:induction false} TunnelUnderFailureFrom(c: Config, attempt: nat, rounds: seq<Round>)
    requires KeepsFailing(rounds) && attempt > 0
    requires c.maxAttempts > 0 ==> attempt <= c.maxAttempts
    ensures var t := TunnelLoop(c, attempt, Delay(c, attempt), rounds); var left := c.maxAttempts - attempt;
            if c.maxAttempts > 0 && |rounds| > left then t == Trace(GaveUp, left, Delays(c, attempt, left))
            else t == Trace(Running, |rounds|, Delays(c, attempt, |rounds|))
    decreases |rounds|
  {
    if rounds != [] {
      assert rounds[0] in rounds;
      assert forall r :: r in rounds[1..] ==> r in rounds;
      var n := if c.maxAttempts > 0 && |rounds| > c.maxAttempts - attempt then c.maxAttempts - attempt else |rounds|;
      if n > 0 {
        TunnelUnderFailureFrom(c, attempt + 1, rounds[1..]);
        assert Delays(c, attempt, n) == [Delay(c, attempt)] + Delays(c, attempt + 1, n - 1);
      }
    }
  }

  /** The single tunnel waits one delay later each time; it too calls `Start` exactly maxAttempts times. */
  lemma TunnelUnderFailure(c: Config, rounds: seq<Round>)
    requires KeepsFailing(rounds) && rounds != []
    ensures var t := TunnelLoop(c, 0, c.initialDelay, rounds);
            if c.maxAttempts > 0 && |rounds| > c.maxAttempts then
              t == Trace(GaveUp, c.maxAttempts, Delays(c, 1, c.maxAttempts - 1))
            else t == Trace(Running, |rounds|, Delays(c, 1, |rounds| - 1))
  {
    assert rounds[0] in rounds;
    assert forall r :: r in rounds[1..] ==> r in rounds;
    TunnelUnderFailureFrom(c, 1, rounds[1..]);
    assert NextDelay(c, c.initialDelay) == Delay(c, 1);
  }

  /**
   Under persistent retryable failure both loops give up after exactly maxAttempts starts, if it is positive,
   and the single tunnel's waits are the shared tunnel's shifted by one.
   */
  lemma LoopsAreShifted(c: Config, rounds: seq<Round>)
    requires KeepsFailing(rounds) && rounds != []
    requires c.maxAttempts > 0 ==> |rounds| > c.maxAttempts
    ensures var s := SharedLoop(c, 0, c.initialDelay, rounds); var t := TunnelLoop(c, 0, c.initialDelay, rounds);
            && s.starts == t.starts && s.exit == t.exit
            && (c.maxAttempts > 0 ==> s.exit == GaveUp && s.starts == c.maxAttempts && |s.waits| == |t.waits| == c.maxAttempts - 1)
            && (forall i :: 0 <= i < |s.waits| ==> s.waits[i] == Delay(c, i))
            && (forall i :: 0 <= i < |t.waits| ==> t.waits[i] == Delay(c, i + 1))
            && (forall i :: 0 <= i < |t.waits| && i + 1 < |s.waits| ==> t.waits[i] == s.waits[i + 1])
  {
    SharedUnderFailure(c, 0, rounds);
    TunnelUnderFailure(c, rounds);
  }

  // ---- closed form ----

  function Pow(m: nat, k: nat): nat { if k == 0 then 1 else m * Pow(m, k - 1) }

  function Min(a: int, b: int): int { if a < b then a else b }

  lemma {:induction false} ProductOfWholeReals(d: nat, m: nat)
    ensures d as real * m as real == (d * m) as real
  {
    if m > 0 {
      ProductOfWholeReals(d, m - 1);
      var x, y := d as real, (m - 1) as real;
      assert m as real == y + 1.0;
      assert x * (y + 1.0) == x * y + x;
      assert d * m == d * (m - 1) + d;
    }
  }

  lemma TruncateWhole(n: nat)
    ensures Truncate(n as real) == n
  {
  }

  /** A whole factor scales exactly; a factor of at least one does not shrink. */
  lemma FactorScales(m: nat, delay: nat)
    ensures ByFactor(m as real)(delay) == delay * m
  {
    ProductOfWholeReals(delay, m);
    var x, n := delay as real * m as real, delay * m;
    assert x == n as real;
    TruncateWhole(n);
    assert Scale(delay, m as real) == Truncate(x);
  }

  lemma FactorGrows(m: real, delay: nat)
    requires m >= 1.0
    ensures ByFactor(m)(delay) >= delay
  {
    var x := delay as real * m;
    assert x - delay as real == delay as real * (m - 1.0) >= 0.0;
    assert x.Floor as real + 1.0 > x >= delay as real;
  }

  lemma MulMonotone(a: nat, b: nat, m: nat)
    requires a <= b
    ensures a * m <= b * m
  {
  }

  /** Capping before scaling by a whole number makes no difference to capping after. */
  lemma CapScaled(a: nat, m: nat, cap: nat)
    requires m > 0 || a <= cap
    ensures Min(Min(a, cap) * m, cap) == Min(a * m, cap)
  {
    if a > cap {
      MulMonotone(cap, a, m);
      MulMonotone(1, m, cap);
    }
  }

  /** The initial delay after k multiplications. */
  function Grown(initial: nat, m: nat, k: nat): nat {
    if k == 0 then initial else Grown(initial, m, k - 1) * m
  }

  lemma MulAssociates(a: nat, p: nat, m: nat)
    ensures a * p * m == a * (m * p)
  {
  }

  lemma {:induction false} GrownIsPower(initial: nat, m: nat, k: nat)
    ensures Grown(initial, m, k) == initial * Pow(m, k)
  {
    if k > 0 {
      GrownIsPower(initial, m, k - 1);
      MulAssociates(initial, Pow(m, k - 1), m);
    }
  }

  lemma {:induction false} DelayIsCappedGrowth(c: Config, m: nat, k: nat)
    requires 0 <= c.initialDelay && 0 <= c.maxDelay
    requires forall d: nat :: c.scaled(d) == d * m
    ensures Delay(c, k) == if k == 0 then c.initialDelay else Min(Grown(c.initialDelay, m, k), c.maxDelay)
  {
    if k > 0 {
      DelayIsCappedGrowth(c, m, k - 1);
      if k > 1 {
        CapScaled(Grown(c.initialDelay, m, k - 1), m, c.maxDelay);
      }
    }
  }

  /**
   The closed form for an integer multiplier: the delay after k > 0 failures is min(initial * M^k, max). The
   first is the initial delay as configured; it is not capped, so the form holds from the start exactly when
   the initial delay is within the bound.
   */
  lemma DelayClosedForm(c: Config, m: nat)
    requires 0 <= c.initialDelay && 0 <= c.maxDelay && c.scaled == ByFactor(m as real)
    ensures forall k: nat :: k > 0 ==> Delay(c, k) == Min(c.initialDelay * Pow(m, k), c.maxDelay)
    ensures (forall k: nat :: Delay(c, k) == Min(c.initialDelay * Pow(m, k), c.maxDelay)) <==> c.initialDelay <= c.maxDelay
  {
    forall d: nat
      ensures c.scaled(d) == d * m
    {
      FactorScales(m, d);
    }
    forall k: nat | k > 0
      ensures Delay(c, k) == Min(c.initialDelay * Pow(m, k), c.maxDelay)
    {
      DelayIsCappedGrowth(c, m, k);
      GrownIsPower(c.initialDelay, m, k);
    }
    assert Delay(c, 0) == c.initialDelay && c.initialDelay * Pow(m, 0) == c.initialDelay;
  }

  /** For any multiplier of at least one, fractional or not, the waits never shrink and never exceed the bound. */
  lemma {:induction false} DelaysGrowToBound(c: Config, k: nat)
    requires 0 <= c.initialDelay <= c.maxDelay
    requires forall d: nat :: c.scaled(d) >= d
    ensures 0 <= Delay(c, k) <= Delay(c, k + 1) <= c.maxDelay
  {
    if k > 0 {
      DelaysGrowToBound(c, k - 1);
    }
  }

  lemma FactorAtLeastOneGrowsToBound(c: Config, m: real, k: nat)
    requires 0 <= c.initialDelay <= c.maxDelay && m >= 1.0 && c.scaled == ByFactor(m)
    ensures 0 <= Delay(c, k) <= Delay(c, k + 1) <= c.maxDelay
  {
    forall d: nat
      ensures c.scaled(d) >= d
    {
      FactorGrows(m, d);
    }
    DelaysGrowToBound(c, k);
  }

  /** Without a configuration: 1 s, 2 s, 4 s and so on up to a minute, for as long as it takes. */
  lemma DefaultDelays(k: nat)
    ensures Delay(OrDefault(None), k) == 1_000_000_000 * Min(Pow(2, k), 60)
    ensures OrDefault(None).maxAttempts <= 0
  {
    assert DEFAULT_CONFIG.scaled == ByFactor(2 as real);
    DelayClosedForm(DEFAULT_CONFIG, 2);
    assert DEFAULT_CONFIG.initialDelay <= DEFAULT_CONFIG.maxDelay;
  }
}
