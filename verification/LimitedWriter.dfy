/**
 `bandwidthLimitedWriter` of internal/ingress/ingress.go: writers that share one atomic counter of
 remaining bytes, and load it, write, and subtract in three separate steps.
 */
module LimitedWriter {
  import opened Sinks

  datatype WriteError = NoError | LimitExceeded | SinkError | ShortWrite

  // ---- one Write call ----

  /** How the sink answers one chunk, and what other writers subtract from the counter meanwhile. */
  datatype Tick = Tick(takes: nat, fails: bool, others: nat)

  datatype Outcome = Outcome(written: nat, err: WriteError, remaining: int)

  function Min(a: int, b: int): int { if a < b then a else b }

  /** One round of the loop on the `len` bytes that are left: load, write, subtract. */
  function OneChunk(remaining: int, len: nat, t: Tick): Outcome {
    if remaining <= 0 then Outcome(0, LimitExceeded, remaining)
    else
      var toWrite := Min(len, remaining);
      var n := Min(t.takes, toWrite);
      var err := if t.fails then SinkError
                 else if n < toWrite then ShortWrite
                 else if toWrite == remaining then LimitExceeded
                 else NoError;
      Outcome(n, err, remaining - n - t.others)
  }

  /** What `Write` does to a buffer of `len` bytes, chunk after chunk. */
  function LimitedWrite(remaining: int, len: nat, script: seq<Tick>): Outcome
    requires len <= |script|
    decreases len
  {
    if len == 0 then Outcome(0, NoError, remaining)
    else
      var o := OneChunk(remaining, len, script[0]);
      if o.err != NoError then o
      else
        var rest := LimitedWrite(o.remaining, len - o.written, script[1..]);
        Outcome(o.written + rest.written, rest.err, rest.remaining)
  }

  /**
   Every `Write` comes to one write of the sink: of the whole buffer, or of what is left if that is less. The
   error is the sink's, a short write, the limit if the buffer reaches it, or none, in this order.
   */
  lemma WriteIsOneRound(remaining: int, len: nat, script: seq<Tick>)
    requires 0 < len <= |script|
    ensures var o, t := LimitedWrite(remaining, len, script), script[0];
            if remaining <= 0 then o == Outcome(0, LimitExceeded, remaining)
            else
              var offered := if len < remaining then len else remaining;
              var taken := if t.takes < offered then t.takes else offered;
              && o.written == taken && o.remaining == remaining - taken - t.others
              && (o.err == SinkError <==> t.fails)
              && (o.err == ShortWrite <==> !t.fails && taken < offered)
              && (o.err == LimitExceeded <==> !t.fails && taken == offered && remaining <= len)
              && (o.err == NoError <==> !t.fails && taken == offered && len < remaining)
  {
    var o := OneChunk(remaining, len, script[0]);
    if o.err == NoError {
      assert LimitedWrite(o.remaining, 0, script[1..]) == Outcome(0, NoError, o.remaining);
    }
  }

  /** A nil error means that everything was written; the loaded value alone bounds what is. */
  lemma {:induction false} WriteBounds(remaining: int, len: nat, script: seq<Tick>)
    requires len <= |script|
    ensures var o := LimitedWrite(remaining, len, script);
            && o.written <= len
            && o.written <= (if remaining < 0 then 0 else remaining)
            && o.remaining <= remaining - o.written
            && (o.err == NoError ==> o.written == len)
            && (o.err == LimitExceeded ==> o.remaining <= 0)
    decreases len
  {
    if len > 0 && remaining > 0 {
      var n := Min(script[0].takes, Min(len, remaining));
      if n > 0 {
        WriteBounds(remaining - n - script[0].others, len - n, script[1..]);
      }
    }
  }

  /**
   Alone and with a sink that takes what it is given, the writer is exact: it writes the smaller of the
   buffer and the allowance, and reports the limit exactly when the buffer reaches it - also when the
   buffer fits to the last byte.
   */
  lemma {:induction false} AloneIsExact(remaining: int, len: nat, script: seq<Tick>)
    requires len <= |script|
    requires forall i :: 0 <= i < |script| ==> script[i].takes >= len && !script[i].fails && script[i].others == 0
    ensures var o := LimitedWrite(remaining, len, script);
            && o.written == (if remaining < 0 then 0 else Min(len, remaining))
            && o.remaining == remaining - o.written
            && (o.err == LimitExceeded <==> 0 < len && remaining <= len)
            && (o.err == NoError <==> !(0 < len && remaining <= len))
  {
  }

  class Counter {
    var value: int
    constructor (v: int) ensures value == v { value := v; }
  }

  class BandwidthLimitedWriter<T> {
    const w: Sink<T>
    const remaining: Counter

    constructor (w: Sink<T>, remaining: Counter)
      ensures this.w == w && this.remaining == remaining
    {
      this.w := w;
      this.remaining := remaining;
    }

    /** One round of the loop: load, write, subtract. */
    method WriteChunk(p: seq<T>, t: Tick) returns (n: nat, err: WriteError)
      modifies w, remaining
      ensures n <= |p| && w.data == old(w.data) + p[..n]
      ensures OneChunk(old(remaining.value), |p|, t) == Outcome(n, err, remaining.value)
    {
      var rem := remaining.value;
      if rem <= 0 {
        return 0, LimitExceeded;
      }
      var toWrite := |p|;
      if toWrite > rem {
        toWrite := rem;
      }
      var chunk := p[..toWrite];
      var failed;
      n, failed := w.Write(chunk, t.takes, t.fails);
      assert chunk[..n] == p[..n];
      remaining.value := remaining.value - n - t.others;
      err := if failed then SinkError else if n < toWrite then ShortWrite else if toWrite == rem then LimitExceeded else NoError;
    }

    /** The sink receives exactly the bytes counted, in order, and they are a prefix of the buffer. */
    method Write(buffer: seq<T>, script: seq<Tick>) returns (writtenTotal: nat, err: WriteError)
      requires |buffer| <= |script|
      modifies w, remaining
      ensures LimitedWrite(old(remaining.value), |buffer|, script) == Outcome(writtenTotal, err, remaining.value)
      ensures writtenTotal <= |buffer| && w.data == old(w.data) + buffer[..writtenTotal]
    {
      writtenTotal := 0;
      var p := buffer;
      var used := 0;
      assert script[0..] == script;
      while |p| > 0
        invariant writtenTotal <= |buffer| && p == buffer[writtenTotal..]
        invariant w.data == old(w.data) + buffer[..writtenTotal]
        invariant used <= writtenTotal && used + |p| <= |script|
        invariant var rest := LimitedWrite(remaining.value, |p|, script[used..]);
                  LimitedWrite(old(remaining.value), |buffer|, script)
                    == Outcome(writtenTotal + rest.written, rest.err, rest.remaining)
      {
        assert script[used] == script[used..][0] && script[used..][1..] == script[used + 1..];
        var n;
        n, err := WriteChunk(p, script[used]);
        PrefixGrows(buffer, writtenTotal, p, n);
        writtenTotal := writtenTotal + n;
        p := p[n..];
        used := used + 1;
        if err != NoError {
          return;
        }
      }
      err := NoError;
    }
  }
}

/** Any number of limited writers on one counter, interleaved load by load and write by write. */
module LimitedWriters {
  import opened Sums
  import opened LimitedWriter

  datatype Pc =
    | Ready
    | Loaded(rem: int, toWrite: int)                          // has loaded the counter, not written yet
    | Wrote(rem: int, toWrite: int, n: nat, failed: bool)     // has written n bytes, not subtracted yet
    | Stopped(err: WriteError)                                // its copy ends with the first error

  datatype State = State(remaining: int, delivered: int, writers: seq<Pc>)

  datatype Event =
    | Load(i: nat, len: nat)
    | SinkWrite(i: nat, n: nat, failed: bool)
    | Subtract(i: nat)

  /** `c` bounds the buffers; a sink takes no more than it is offered. */
  predicate Enabled(s: State, e: Event, c: nat) {
    && e.i < |s.writers|
    && match e
       case Load(i, len) => s.writers[i].Ready? && 0 < len <= c
       case SinkWrite(i, n, _) => s.writers[i].Loaded? && n <= s.writers[i].toWrite
       case Subtract(i) => s.writers[i].Wrote?
  }

  function Next(s: State, e: Event, c: nat): State
    requires Enabled(s, e, c)
  {
    match e
    case Load(i, len) =>
      s.(writers := s.writers[i := if s.remaining <= 0 then Stopped(LimitExceeded)
                                   else Loaded(s.remaining, Min(len, s.remaining))])
    case SinkWrite(i, n, failed) =>
      State(s.remaining, s.delivered + n, s.writers[i := Wrote(s.writers[i].rem, s.writers[i].toWrite, n, failed)])
    case Subtract(i) =>
      var w := s.writers[i];
      var pc := if w.failed then Stopped(SinkError)
                else if w.n < w.toWrite then Stopped(ShortWrite)
                else if w.toWrite == w.rem then Stopped(LimitExceeded)
                else Ready;
      State(s.remaining - w.n, s.delivered, s.writers[i := pc])
  }

  function Initial(allowance: int, k: nat): State {
    State(allowance, 0, seq(k, _ => Ready))
  }

  ghost predicate IsRunFrom(s: State, es: seq<Event>, c: nat)
    decreases |es|, 0
  {
    es == [] || (IsRunFrom(s, es[..|es| - 1], c) && Enabled(AfterFrom(s, es[..|es| - 1], c), es[|es| - 1], c))
  }

  ghost function AfterFrom(s: State, es: seq<Event>, c: nat): State
    requires IsRunFrom(s, es, c)
    decreases |es|, 1
  {
    if es == [] then s else Next(AfterFrom(s, es[..|es| - 1], c), es[|es| - 1], c)
  }

  ghost predicate IsRun(allowance: int, k: nat, c: nat, es: seq<Event>) { IsRunFrom(Initial(allowance, k), es, c) }

  ghost function After(allowance: int, k: nat, c: nat, es: seq<Event>): State
    requires IsRun(allowance, k, c, es)
  {
    AfterFrom(Initial(allowance, k), es, c)
  }

  // ---- the steps of one writer among the others are the rounds of its `Write` ----

  ghost predicate RestsIn(es: seq<Event>, i: nat) { forall x :: 0 <= x < |es| ==> es[x].i != i }

  /** While writer `i` rests, the others leave it where it is, and the counter only falls. */
  lemma {:induction false} RestingWriter(s: State, es: seq<Event>, c: nat, i: nat)
    requires IsRunFrom(s, es, c) && RestsIn(es, i) && i < |s.writers|
    ensures var s' := AfterFrom(s, es, c);
            |s'.writers| == |s.writers| && s'.writers[i] == s.writers[i] && s'.remaining <= s.remaining
  {
    if es != [] {
      var n := |es| - 1;
      assert RestsIn(es[..n], i);
      RestingWriter(s, es[..n], c, i);
    }
  }

  /**
   A writer's load, write and subtraction, with any events `bs` and `ds` of the others in between, are one
   round of its `Write`: the same bytes, the same counter, and it goes on or stops as the method does.
   */
  lemma RoundIsOneChunk(s: State, c: nat, i: nat, len: nat, n: nat, failed: bool, bs: seq<Event>, ds: seq<Event>)
    requires Enabled(s, Load(i, len), c) && RestsIn(bs, i) && RestsIn(ds, i)
    requires var s1 := Next(s, Load(i, len), c);
             && IsRunFrom(s1, bs, c) && Enabled(AfterFrom(s1, bs, c), SinkWrite(i, n, failed), c)
             && IsRunFrom(Next(AfterFrom(s1, bs, c), SinkWrite(i, n, failed), c), ds, c)
    ensures var t1 := AfterFrom(Next(s, Load(i, len), c), bs, c);
            var t2 := AfterFrom(Next(t1, SinkWrite(i, n, failed), c), ds, c);
            && Enabled(t2, Subtract(i), c)
            && var s' := Next(t2, Subtract(i), c);
               && s'.remaining <= s.remaining - n && i < |s'.writers|
               && var o := OneChunk(s.remaining, len, Tick(n, failed, s.remaining - n - s'.remaining));
                  && o.written == n && o.remaining == s'.remaining
                  && s'.writers[i] == if o.err == NoError then Ready else Stopped(o.err)
  {
    var s1 := Next(s, Load(i, len), c);
    RestingWriter(s1, bs, c, i);
    RestingWriter(Next(AfterFrom(s1, bs, c), SinkWrite(i, n, failed), c), ds, c, i);
  }

  /** Bytes a writer has passed on but not yet subtracted. */
  function InFlight(pc: Pc): int { if pc.Wrote? then pc.n else 0 }

  /** Bytes a writer may still pass on, or has, against the value it loaded. */
  function Reserved(pc: Pc): int { if pc.Loaded? || pc.Wrote? then pc.toWrite else 0 }

  function Positive(allowance: int): nat { if allowance < 0 then 0 else allowance }

  /** The most one writer can reserve: a buffer, or the allowance if that is less. */
  function Share(allowance: int, c: nat): nat { Min(Positive(allowance), c) }

  /** The most that k writers deliver. */
  function Most(allowance: int, k: nat, c: nat): int { Positive(allowance) + (k - 1) * Share(allowance, c) }

  ghost predicate PcOk(remaining: int, allowance: int, c: nat, pc: Pc) {
    && (pc.Loaded? || pc.Wrote? ==> 0 < pc.toWrite <= c && pc.toWrite <= pc.rem && remaining <= pc.rem <= allowance)
    && (pc.Wrote? ==> 0 <= pc.n <= pc.toWrite)
    && (pc == Stopped(LimitExceeded) ==> remaining <= 0)
  }

  ghost predicate Inv(s: State, allowance: int, k: nat, c: nat) {
    && |s.writers| == k
    && s.remaining <= allowance
    && (forall i :: 0 <= i < k ==> PcOk(s.remaining, allowance, c, s.writers[i]))
    && s.remaining + s.delivered - SumBy(s.writers, InFlight) == allowance
    && SumBy(s.writers, Reserved) - s.remaining <= Most(allowance, k, c) - allowance
  }

  /** What the writers other than `i` have reserved is at most one share each. */
  lemma OthersReserve(s: State, allowance: int, c: nat, i: nat)
    requires forall j :: 0 <= j < |s.writers| ==> PcOk(s.remaining, allowance, c, s.writers[j])
    requires i < |s.writers|
    ensures SumBy(s.writers, Reserved) - Reserved(s.writers[i]) <= (|s.writers| - 1) * Share(allowance, c)
  {
    var ws := s.writers[..i] + s.writers[i + 1..];
    SumByBounds(ws, Reserved, Share(allowance, c));
    SumByWithout(s.writers, i, Reserved);
  }

  lemma {:induction false} SumByWithout<T>(s: seq<T>, i: nat, f: T -> int)
    requires i < |s|
    ensures SumBy(s[..i] + s[i + 1..], f) == SumBy(s, f) - f(s[i])
  {
    if i == |s| - 1 {
      assert s[..i] + s[i + 1..] == s[..|s| - 1];
    } else {
      var t := s[..|s| - 1];
      SumByWithout(t, i, f);
      assert s[..i] + s[i + 1..] == (t[..i] + t[i + 1..]) + [s[|s| - 1]];
      SumByAppend(t[..i] + t[i + 1..], s[|s| - 1], f);
    }
  }

  lemma NextKeepsInv(s: State, e: Event, allowance: int, k: nat, c: nat)
    requires Inv(s, allowance, k, c) && Enabled(s, e, c)
    ensures Inv(Next(s, e, c), allowance, k, c)
  {
    var s' := Next(s, e, c);
    SumByUpdate(s.writers, e.i, s'.writers[e.i], InFlight);
    SumByUpdate(s.writers, e.i, s'.writers[e.i], Reserved);
    if e.Load? {
      OthersReserve(s, allowance, c, e.i);
    }
  }

  lemma {:induction false} RunKeepsInv(allowance: int, k: nat, c: nat, es: seq<Event>)
    requires 0 < k && IsRun(allowance, k, c, es)
    ensures Inv(After(allowance, k, c, es), allowance, k, c)
  {
    if es == [] {
      var ws := Initial(allowance, k).writers;
      SumByBounds(ws, InFlight, 0);
      SumByBounds(ws, Reserved, 0);
      assert 0 <= (k - 1) * Share(allowance, c);
    } else {
      RunKeepsInv(allowance, k, c, es[..|es| - 1]);
      NextKeepsInv(After(allowance, k, c, es[..|es| - 1]), es[|es| - 1], allowance, k, c);
    }
  }

  /** Conservation: the counter and the delivered bytes add up to the allowance, save what is in flight. */
  lemma Conservation(allowance: int, k: nat, c: nat, es: seq<Event>)
    requires 0 < k && IsRun(allowance, k, c, es)
    ensures var s := After(allowance, k, c, es);
            && s.remaining + s.delivered == allowance + SumBy(s.writers, InFlight)
            && ((forall w :: w in s.writers ==> !w.Wrote?) ==> s.remaining + s.delivered == allowance)
  {
    RunKeepsInv(allowance, k, c, es);
    var s := After(allowance, k, c, es);
    if forall w :: w in s.writers ==> !w.Wrote? {
      assert forall i :: 0 <= i < |s.writers| ==> s.writers[i] in s.writers;
      SumByBounds(s.writers, InFlight, 0);
    }
  }

  /**
   Overshoot: k writers with buffers of at most c bytes pass at most k - 1 buffers too many, or k - 1 times
   the allowance if that is less than a buffer; and nothing at all if it is not positive.
   */
  lemma BoundedOvershoot(allowance: int, k: nat, c: nat, es: seq<Event>)
    requires 0 < k && IsRun(allowance, k, c, es)
    ensures After(allowance, k, c, es).delivered <= Most(allowance, k, c)
  {
    RunKeepsInv(allowance, k, c, es);
    SumByLe(After(allowance, k, c, es).writers, InFlight, Reserved);
  }

  /** A single writer never overshoots; the two directions of a copy do by at most one buffer. */
  lemma OneWriterIsExactTwoOvershootByOneBuffer(allowance: nat, c: nat, es: seq<Event>)
    ensures IsRun(allowance, 1, c, es) ==> After(allowance, 1, c, es).delivered <= allowance
    ensures IsRun(allowance, 2, c, es) ==> After(allowance, 2, c, es).delivered <= allowance + c
  {
    if IsRun(allowance, 1, c, es) {
      BoundedOvershoot(allowance, 1, c, es);
    }
    if IsRun(allowance, 2, c, es) {
      BoundedOvershoot(allowance, 2, c, es);
    }
  }

  /** Nobody is cut off early: once a writer reports the limit, the whole allowance has been delivered. */
  lemma LimitMeansAllDelivered(allowance: int, k: nat, c: nat, es: seq<Event>)
    requires 0 < k && IsRun(allowance, k, c, es)
    requires Stopped(LimitExceeded) in After(allowance, k, c, es).writers
    ensures allowance <= After(allowance, k, c, es).delivered <= Most(allowance, k, c)
  {
    RunKeepsInv(allowance, k, c, es);
    BoundedOvershoot(allowance, k, c, es);
    SumByNonneg(After(allowance, k, c, es).writers, InFlight);
  }

  // ---- the bound is attained ----

  function Resting(k: nat): seq<Pc> { seq(k, _ => Ready) }

  /** The first writer draws n bytes, one by one. */
  function DrawDown(n: nat): seq<Event> {
    if n == 0 then [] else DrawDown(n - 1) + [Load(0, 1)] + [SinkWrite(0, 1, false)] + [Subtract(0)]
  }

  /** Then the first j writers load what is left, up to a buffer, and the others have not. */
  function AllLoad(n: nat, c: nat, j: nat): seq<Event> {
    if j == 0 then DrawDown(n) else AllLoad(n, c, j - 1) + [Load(j - 1, c)]
  }

  /** Then the first j write what they loaded, though only one of them could. */
  function AllLoadThenWrite(n: nat, m: nat, c: nat, k: nat, j: nat): seq<Event> {
    if j == 0 then AllLoad(n, c, k) else AllLoadThenWrite(n, m, c, k, j - 1) + [SinkWrite(j - 1, m, false)]
  }

  /** The run `es` ends in `s`. */
  ghost predicate EndsIn(allowance: int, k: nat, c: nat, es: seq<Event>, s: State) {
    IsRun(allowance, k, c, es) && After(allowance, k, c, es) == s
  }

  lemma OneMore(allowance: int, k: nat, c: nat, es: seq<Event>, s: State, e: Event, s': State)
    requires EndsIn(allowance, k, c, es, s) && Enabled(s, e, c) && s' == Next(s, e, c)
    ensures EndsIn(allowance, k, c, es + [e], s')
  {
    assert (es + [e])[..|es|] == es;
  }

  /** One byte less, by three steps. */
  lemma DrawsOne(allowance: int, k: nat, c: nat, es: seq<Event>, rem: int, delivered: int)
    requires 0 < k && 0 < c && 1 < rem && EndsIn(allowance, k, c, es, State(rem, delivered, Resting(k)))
    ensures EndsIn(allowance, k, c, es + [Load(0, 1)] + [SinkWrite(0, 1, false)] + [Subtract(0)], State(rem - 1, delivered + 1, Resting(k)))
  {
    var w1, w2 := Resting(k)[0 := Loaded(rem, 1)], Resting(k)[0 := Wrote(rem, 1, 1, false)];
    assert w1[0 := Wrote(rem, 1, 1, false)] == w2 && w2[0 := Ready] == Resting(k);
    OneMore(allowance, k, c, es, State(rem, delivered, Resting(k)), Load(0, 1), State(rem, delivered, w1));
    OneMore(allowance, k, c, es + [Load(0, 1)], State(rem, delivered, w1), SinkWrite(0, 1, false), State(rem, delivered + 1, w2));
    OneMore(allowance, k, c, es + [Load(0, 1)] + [SinkWrite(0, 1, false)], State(rem, delivered + 1, w2), Subtract(0),
            State(rem - 1, delivered + 1, Resting(k)));
  }

  lemma {:induction false} DrawingRun(allowance: nat, k: nat, c: nat, n: nat)
    requires 0 < k && 0 < c && n < allowance
    ensures EndsIn(allowance, k, c, DrawDown(n), State(allowance - n, n, Resting(k)))
  {
    if n > 0 {
      DrawingRun(allowance, k, c, n - 1);
      DrawsOne(allowance, k, c, DrawDown(n - 1), allowance - n + 1, n - 1);
    }
  }

  function LoadedUpTo(k: nat, m: nat, j: nat): seq<Pc> { seq(k, i => if i < j then Loaded(m, m) else Ready) }

  lemma NextLoads(k: nat, m: nat, c: nat, delivered: int, j: nat)
    requires 0 < m <= c && j < k
    ensures Enabled(State(m, delivered, LoadedUpTo(k, m, j)), Load(j, c), c)
    ensures Next(State(m, delivered, LoadedUpTo(k, m, j)), Load(j, c), c) == State(m, delivered, LoadedUpTo(k, m, j + 1))
  {
    assert LoadedUpTo(k, m, j)[j := Loaded(m, m)] == LoadedUpTo(k, m, j + 1);
  }

  lemma {:induction false} LoadingRun(allowance: nat, k: nat, c: nat, j: nat)
    requires 0 < k && 0 < c && 0 < allowance && j <= k
    ensures var m := Share(allowance, c);
            EndsIn(allowance, k, c, AllLoad(allowance - m, c, j), State(m, allowance - m, LoadedUpTo(k, m, j)))
  {
    var m := Share(allowance, c);
    if j == 0 {
      DrawingRun(allowance, k, c, allowance - m);
      assert LoadedUpTo(k, m, 0) == Resting(k);
    } else {
      LoadingRun(allowance, k, c, j - 1);
      NextLoads(k, m, c, allowance - m, j - 1);
      OneMore(allowance, k, c, AllLoad(allowance - m, c, j - 1), State(m, allowance - m, LoadedUpTo(k, m, j - 1)),
              Load(j - 1, c), State(m, allowance - m, LoadedUpTo(k, m, j)));
    }
  }

  function WroteUpTo(k: nat, m: nat, j: nat): seq<Pc> { seq(k, i => if i < j then Wrote(m, m, m, false) else Loaded(m, m)) }

  lemma NextWrites(k: nat, m: nat, c: nat, delivered: int, j: nat)
    requires j < k
    ensures Enabled(State(m, delivered, WroteUpTo(k, m, j)), SinkWrite(j, m, false), c)
    ensures Next(State(m, delivered, WroteUpTo(k, m, j)), SinkWrite(j, m, false), c) == State(m, delivered + m, WroteUpTo(k, m, j + 1))
  {
    assert WroteUpTo(k, m, j)[j := Wrote(m, m, m, false)] == WroteUpTo(k, m, j + 1);
  }

  lemma {:induction false} WritingRun(allowance: nat, k: nat, c: nat, j: nat)
    requires 0 < k && 0 < c && 0 < allowance && j <= k
    ensures var m := Share(allowance, c);
            EndsIn(allowance, k, c, AllLoadThenWrite(allowance - m, m, c, k, j), State(m, allowance - m + j * m, WroteUpTo(k, m, j)))
  {
    var m := Share(allowance, c);
    if j == 0 {
      LoadingRun(allowance, k, c, k);
      assert LoadedUpTo(k, m, k) == WroteUpTo(k, m, 0);
    } else {
      WritingRun(allowance, k, c, j - 1);
      var delivered := allowance - m + (j - 1) * m;
      NextWrites(k, m, c, delivered, j - 1);
      assert delivered + m == allowance - m + j * m;
      OneMore(allowance, k, c, AllLoadThenWrite(allowance - m, m, c, k, j - 1), State(m, delivered, WroteUpTo(k, m, j - 1)),
              SinkWrite(j - 1, m, false), State(m, delivered + m, WroteUpTo(k, m, j)));
    }
  }

  ghost predicate Delivers(allowance: int, k: nat, c: nat, es: seq<Event>, bytes: int) {
    IsRun(allowance, k, c, es) && After(allowance, k, c, es).delivered == bytes
  }

  /** The bound is the best there is, for every allowance, number of writers and buffer size. */
  lemma OvershootIsAttained(allowance: int, k: nat, c: nat)
    requires 0 < k && 0 < c
    ensures exists es :: Delivers(allowance, k, c, es, Most(allowance, k, c))
  {
    if allowance <= 0 {
      assert Most(allowance, k, c) == (k - 1) * 0 == 0;
      assert Delivers(allowance, k, c, [], 0);
    } else {
      var m := Share(allowance, c);
      WritingRun(allowance, k, c, k);
      assert k * m == m + (k - 1) * m;
      assert Delivers(allowance, k, c, AllLoadThenWrite(allowance - m, m, c, k, k), Most(allowance, k, c));
    }
  }

  lemma MostIsMore(allowance: int, k: nat, c: nat)
    requires 0 < k
    ensures Most(allowance, k, c) >= Positive(allowance)
    ensures Most(allowance, k, c) > Positive(allowance) <==> 2 <= k && 0 < allowance && 0 < c
  {
    assert Share(allowance, c) == 0 || k == 1 ==> (k - 1) * Share(allowance, c) == 0;
  }

  /** When a run can overshoot at all. */
  lemma OvershootsIff(allowance: int, k: nat, c: nat)
    requires 0 < k
    ensures (exists es, bytes :: Delivers(allowance, k, c, es, bytes) && bytes > Positive(allowance))
              <==> 2 <= k && 0 < allowance && 0 < c
  {
    MostIsMore(allowance, k, c);
    if es, bytes :| Delivers(allowance, k, c, es, bytes) && bytes > Positive(allowance) {
      BoundedOvershoot(allowance, k, c, es);
    }
    if 2 <= k && 0 < allowance && 0 < c {
      OvershootIsAttained(allowance, k, c);
    }
  }
}
