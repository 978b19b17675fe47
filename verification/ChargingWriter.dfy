/**
 `bandwidthChargingWriter` of internal/ingress/ingress.go: a writer that buys each chunk of at most
 32 KiB from the quota before it writes it, and the copy loop that feeds it.
 */
module ChargingWriter {
  import opened Sinks

  const MAX_CHUNK: nat := 32 * 1024

  datatype WriteError = NoError | LimitExceeded | ConsumeError | SinkError | ShortWrite

  datatype Answer = Allowed | Denied | Failed

  /** The quota's answer to one chunk, and how the sink takes the chunk if it is offered. */
  datatype Tick = Tick(answer: Answer, takes: nat, fails: bool)

  datatype Outcome = Outcome(written: nat, err: WriteError, charged: int)

  function Min(a: nat, b: nat): nat { if a < b then a else b }

  /** What becomes of the next chunk of a buffer that has `len` bytes left. */
  function OneChunk(len: nat, t: Tick): Outcome {
    var chunk := Min(len, MAX_CHUNK);
    match t.answer
    case Failed => Outcome(0, ConsumeError, 0)
    case Denied => Outcome(0, LimitExceeded, 0)
    case Allowed =>
      var n := Min(t.takes, chunk);
      Outcome(n, if t.fails then SinkError else if n < chunk then ShortWrite else NoError, chunk)
  }

  /**
   What `Write` does to a buffer of `len` bytes: chunk after chunk until the first error. The answers are
   those of `script` from position `i` on.
   */
  function ChargeWrite(len: nat, script: seq<Tick>, i: nat): Outcome
    requires i + len <= |script|
    decreases len
  {
    if len == 0 then Outcome(0, NoError, 0)
    else
      var o := OneChunk(len, script[i]);
      if o.err != NoError then o
      else
        var rest := ChargeWrite(len - o.written, script, i + 1);
        Outcome(o.written + rest.written, rest.err, o.charged + rest.charged)
  }

  /**
   Charge before write: nothing is written that was not charged, at most one chunk is charged in vain, and
   then only by a write that fails; a nil error means that the whole buffer was charged and written.
   */
  lemma {:induction false} ChargedThenWritten(len: nat, script: seq<Tick>, i: nat)
    requires i + len <= |script|
    ensures var o := ChargeWrite(len, script, i);
            && o.written <= o.charged <= len
            && o.charged - o.written <= MAX_CHUNK
            && (o.written < o.charged ==> o.err == SinkError || o.err == ShortWrite)
            && (o.err == NoError ==> o.written == o.charged == len)
            && (o.err == LimitExceeded || o.err == ConsumeError ==> o.written == o.charged < len)
    decreases len
  {
    if len > 0 {
      ChargedThenWritten(len - Min(len, MAX_CHUNK), script, i + 1);
    }
  }

  /** The chunk that starts after `k` full ones, if the buffer is that long. */
  function ChunkAfter(len: nat, k: nat): nat
    requires k * (32 * 1024) <= len
  {
    if len - k * (32 * 1024) < 32 * 1024 then len - k * (32 * 1024) else 32 * 1024
  }

  /** The answers from `i` on are such that `Write` gets to its chunk `k`: all before it are bought and written whole. */
  ghost predicate Reaches(len: nat, script: seq<Tick>, i: nat, k: nat)
    requires i + len <= |script|
  {
    k * (32 * 1024) < len
    && forall j :: i <= j < i + k ==> script[j].answer == Allowed && !script[j].fails && script[j].takes >= 32 * 1024
  }

  /** The answer and the sink let `Write` go on after a chunk of this size. */
  predicate GoesOn(t: Tick, chunk: nat) { t.answer == Allowed && !t.fails && t.takes >= chunk }

  /** Chunk `k` is the first that does not go on. */
  ghost predicate StopsAt(len: nat, script: seq<Tick>, i: nat, k: nat)
    requires i + len <= |script|
  {
    Reaches(len, script, i, k) && k < len && !GoesOn(script[i + k], ChunkAfter(len, k))
  }

  /** What is charged and written, and the error, if it is chunk `k` that stops the write. */
  function Stopped(len: nat, t: Tick, k: nat): Outcome
    requires k * (32 * 1024) <= len
  {
    var chunk, before := ChunkAfter(len, k), k * (32 * 1024);
    match t.answer
    case Denied => Outcome(before, LimitExceeded, before)
    case Failed => Outcome(before, ConsumeError, before)
    case Allowed => Outcome(before + Min(t.takes, chunk), if t.fails then SinkError else ShortWrite, before + chunk)
  }

  lemma StopsAtFirst(len: nat, script: seq<Tick>, i: nat)
    requires i + len <= |script| && StopsAt(len, script, i, 0)
    ensures ChargeWrite(len, script, i) == Stopped(len, script[i], 0)
  {
  }

  lemma GoesOnAtFirst(len: nat, script: seq<Tick>, i: nat, k: nat)
    requires i + len <= |script| && 0 < k && StopsAt(len, script, i, k)
    ensures MAX_CHUNK < len && StopsAt(len - MAX_CHUNK, script, i + 1, k - 1)
    ensures var rest := ChargeWrite(len - MAX_CHUNK, script, i + 1);
            ChargeWrite(len, script, i) == Outcome(MAX_CHUNK + rest.written, rest.err, MAX_CHUNK + rest.charged)
  {
    assert k * (32 * 1024) == (k - 1) * (32 * 1024) + MAX_CHUNK;
    assert script[i].answer == Allowed;
  }

  lemma StoppedLater(len: nat, t: Tick, k: nat)
    requires 0 < k && k * (32 * 1024) <= len
    ensures (k - 1) * (32 * 1024) <= len - MAX_CHUNK
    ensures var o, rest := Stopped(len, t, k), Stopped(len - MAX_CHUNK, t, k - 1);
            o == Outcome(MAX_CHUNK + rest.written, rest.err, MAX_CHUNK + rest.charged)
  {
    assert k * (32 * 1024) == (k - 1) * (32 * 1024) + MAX_CHUNK;
  }

  lemma StopsOneLater(len: nat, script: seq<Tick>, i: nat, k: nat)
    requires i + len <= |script| && 0 < k && StopsAt(len, script, i, k) && MAX_CHUNK < len
    requires (k - 1) * (32 * 1024) <= len - MAX_CHUNK && i + k < |script|
    requires ChargeWrite(len - MAX_CHUNK, script, i + 1) == Stopped(len - MAX_CHUNK, script[i + k], k - 1)
    ensures ChargeWrite(len, script, i) == Stopped(len, script[i + k], k)
  {
    GoesOnAtFirst(len, script, i, k);
    StoppedLater(len, script[i + k], k);
  }

  /** The first chunk that does not go on decides the error, and what is charged and written. */
  lemma {:induction false} FirstStopDecides(len: nat, script: seq<Tick>, i: nat, k: nat)
    requires i + len <= |script| && StopsAt(len, script, i, k)
    ensures ChargeWrite(len, script, i) == Stopped(len, script[i + k], k)
    decreases k
  {
    if k == 0 {
      StopsAtFirst(len, script, i);
    } else {
      GoesOnAtFirst(len, script, i, k);
      FirstStopDecides(len - MAX_CHUNK, script, i + 1, k - 1);
      assert i + 1 + (k - 1) == i + k;
      StopsOneLater(len, script, i, k);
    }
  }

  /** Without such a chunk everything is charged and written. */
  lemma {:induction false} WritesAll(len: nat, script: seq<Tick>, i: nat)
    requires i + len <= |script|
    requires forall k: nat :: !StopsAt(len, script, i, k)
    ensures ChargeWrite(len, script, i) == Outcome(len, NoError, len)
    decreases len
  {
    if len > 0 {
      assert !StopsAt(len, script, i, 0);
      var rest, next := len - Min(len, MAX_CHUNK), i + 1;
      if k: nat :| StopsAt(rest, script, next, k) {
        assert StopsAt(len, script, i, k + 1);
      }
      WritesAll(rest, script, next);
    }
  }

  /** Chunk `k` stops the write, and this is the error that comes of it. */
  ghost predicate StopsBy(len: nat, script: seq<Tick>, k: nat, err: WriteError)
    requires len <= |script|
  {
    StopsAt(len, script, 0, k) &&
    match err
    case LimitExceeded => script[k].answer == Denied
    case ConsumeError => script[k].answer == Failed
    case SinkError => script[k].answer == Allowed && script[k].fails
    case ShortWrite => script[k].answer == Allowed && !script[k].fails
    case NoError => false
  }

  lemma StopsByItsError(len: nat, script: seq<Tick>, k: nat)
    requires len <= |script| && StopsAt(len, script, 0, k)
    ensures var err := ChargeWrite(len, script, 0).err; StopsBy(len, script, k, err) && err != NoError
    ensures forall err :: StopsBy(len, script, k, err) ==> ChargeWrite(len, script, 0).err == err
  {
    FirstStopDecides(len, script, 0, k);
  }

  /**
   Which error `Write` returns: the limit exactly for a denied chunk, the error of `consume` exactly if that
   fails, the sink's exactly if that fails, a short write exactly if the sink takes less than the chunk,
   whichever comes first; and none exactly if no chunk stops it.
   */
  lemma WriteErrors(len: nat, script: seq<Tick>, err: WriteError)
    requires len <= |script|
    ensures err != NoError ==> (ChargeWrite(len, script, 0).err == err <==> exists k: nat :: StopsBy(len, script, k, err))
    ensures ChargeWrite(len, script, 0).err == NoError <==> forall k: nat :: !StopsAt(len, script, 0, k)
  {
    if k: nat :| StopsAt(len, script, 0, k) {
      StopsByItsError(len, script, k);
      if j: nat :| StopsBy(len, script, j, err) {
        StopsByItsError(len, script, j);
      }
    } else {
      WritesAll(len, script, 0);
    }
  }

  /** What a stream has cost and delivered so far. */
  class Meter {
    var charged: int
    constructor () ensures charged == 0 { charged := 0; }

    /** The `consume` callback: it charges exactly when it allows. */
    method Consume(bytes: nat, t: Tick) returns (answer: Answer)
      modifies this
      ensures answer == t.answer
      ensures charged == old(charged) + if answer == Allowed then bytes else 0
    {
      answer := t.answer;
      if answer == Allowed {
        charged := charged + bytes;
      }
    }
  }

  /** A write that comes to `all` in the end has `len` bytes to go, after `sofar` and `used` answers. */
  ghost predicate ToGo(all: Outcome, sofar: Outcome, len: nat, script: seq<Tick>, used: nat) {
    && used + len <= |script|
    && var rest := ChargeWrite(len, script, used);
       all == Outcome(sofar.written + rest.written, rest.err, sofar.charged + rest.charged)
  }

  function Plus(o: Outcome, next: Outcome): Outcome {
    Outcome(o.written + next.written, next.err, o.charged + next.charged)
  }

  /** What one round leaves of such a write. */
  lemma OneRound(all: Outcome, sofar: Outcome, len: nat, script: seq<Tick>, used: nat)
    requires 0 < len && ToGo(all, sofar, len, script, used)
    ensures var o := OneChunk(len, script[used]);
            && o.written <= len
            && if o.err != NoError then all == Plus(sofar, o)
               else 0 < o.written && ToGo(all, Plus(sofar, o), len - o.written, script, used + 1)
  {
  }

  class BandwidthChargingWriter<T> {
    const w: Sink<T>
    const quota: Meter?

    constructor (w: Sink<T>, quota: Meter?)
      ensures this.w == w && this.quota == quota
    {
      this.w := w;
      this.quota := quota;
    }

    /** With a quota: what `ChargeWrite` says. Without one: a plain write that charges nothing. */
    method Write(buffer: seq<T>, script: seq<Tick>) returns (writtenTotal: nat, err: WriteError)
      requires |buffer| < |script|
      modifies w, quota
      ensures writtenTotal <= |buffer| && w.data == old(w.data) + buffer[..writtenTotal]
      ensures quota != null ==>
                var o := ChargeWrite(|buffer|, script, 0);
                o.written == writtenTotal && o.err == err && quota.charged == old(quota.charged) + o.charged
      ensures quota == null ==>
                writtenTotal == Min(script[0].takes, |buffer|) && err == if script[0].fails then SinkError else NoError
    {
      if quota == null {
        var n, failed := w.Write(buffer, script[0].takes, script[0].fails);
        return n, if failed then SinkError else NoError;
      }
      writtenTotal, err := WriteInChunks(quota, buffer, script);
    }

    /** One round of the loop: buy the chunk, then write it. */
    method WriteChunk(quota: Meter, p: seq<T>, t: Tick) returns (n: nat, err: WriteError)
      modifies w, quota
      ensures n <= |p| && w.data == old(w.data) + p[..n]
      ensures OneChunk(|p|, t) == Outcome(n, err, quota.charged - old(quota.charged))
    {
      var chunk := p;
      if |chunk| > MAX_CHUNK {
        chunk := p[..MAX_CHUNK];
      }
      var answer := quota.Consume(|chunk|, t);
      if answer == Failed {
        return 0, ConsumeError;
      }
      if answer == Denied {
        return 0, LimitExceeded;
      }
      var failed;
      n, failed := w.Write(chunk, t.takes, t.fails);
      assert chunk[..n] == p[..n];
      err := if failed then SinkError else if n < |chunk| then ShortWrite else NoError;
    }

    /** The same round in a write of `buffer` that comes to `all` and began when the sink held `before`. */
    method WriteNext(quota: Meter, p: seq<T>, script: seq<Tick>, used: nat,
                     ghost all: Outcome, ghost sofar: Outcome, ghost buffer: seq<T>, ghost before: seq<T>)
      returns (n: nat, err: WriteError, rest: seq<T>)
      requires |p| > 0 && ToGo(all, sofar, |p|, script, used)
      requires sofar.written <= |buffer| && p == buffer[sofar.written..] && w.data == before + buffer[..sofar.written]
      modifies w, quota
      ensures n <= |p| && w.data == before + buffer[..sofar.written + n] && rest == buffer[sofar.written + n..]
      ensures var sofar' := Outcome(sofar.written + n, err, sofar.charged + quota.charged - old(quota.charged));
              if err != NoError then all == sofar' else n > 0 && ToGo(all, sofar', |rest|, script, used + 1)
    {
      OneRound(all, sofar, |p|, script, used);
      n, err := WriteChunk(quota, p, script[used]);
      PrefixGrows(buffer, sofar.written, p, n);
      rest := p[n..];
    }

    /** The chunk loop of `Write`. */
    method WriteInChunks(quota: Meter, buffer: seq<T>, script: seq<Tick>) returns (writtenTotal: nat, err: WriteError)
      requires |buffer| <= |script|
      modifies w, quota
      ensures writtenTotal <= |buffer| && w.data == old(w.data) + buffer[..writtenTotal]
      ensures ChargeWrite(|buffer|, script, 0) == Outcome(writtenTotal, err, quota.charged - old(quota.charged))
    {
      writtenTotal, err := 0, NoError;
      var p := buffer;
      var used := 0;
      ghost var all, sofar := ChargeWrite(|buffer|, script, 0), Outcome(0, NoError, 0);
      while |p| > 0
        invariant sofar == Outcome(writtenTotal, NoError, quota.charged - old(quota.charged)) && err == NoError
        invariant writtenTotal <= |buffer| && p == buffer[writtenTotal..]
        invariant w.data == old(w.data) + buffer[..writtenTotal]
        invariant ToGo(all, sofar, |p|, script, used)
      {
        var n;
        n, err, p := WriteNext(quota, p, script, used, all, sofar, buffer, old(w.data));
        writtenTotal := writtenTotal + n;
        used := used + 1;
        sofar := Outcome(writtenTotal, err, quota.charged - old(quota.charged));
        if err != NoError {
          return;
        }
      }
    }

    /** What one `Write` means for the account of a stream. */
    method WriteOnAccount(buffer: seq<T>, script: seq<Tick>) returns (n: nat, err: WriteError)
      requires quota != null && |buffer| < |script|
      modifies w, quota
      ensures n <= |buffer| && w.data == old(w.data) + buffer[..n] && err == ChargeWrite(|buffer|, script, 0).err
      ensures n <= quota.charged - old(quota.charged) <= n + MAX_CHUNK
      ensures err == NoError ==> n == |buffer|
      ensures err == NoError || err == LimitExceeded || err == ConsumeError ==> quota.charged == old(quota.charged) + n
    {
      ChargedThenWritten(|buffer|, script, 0);
      n, err := Write(buffer, script);
    }

    /** The write of buffer `i` in a copy that began when the sink held `before`. */
    method CopyNext(buffers: seq<seq<T>>, i: nat, script: seq<Tick>, ghost before: seq<T>) returns (n: nat, err: WriteError)
      requires i < |buffers| && |buffers[i]| < |script| && quota != null && w.data == before + Concat(buffers[..i])
      modifies w, quota
      ensures var written := |Concat(buffers[..i])| + n;
              && written <= |Concat(buffers)| && w.data == before + Concat(buffers)[..written]
              && (err == NoError ==> w.data == before + Concat(buffers[..i + 1]) && written == |Concat(buffers[..i + 1])|)
      ensures n <= quota.charged - old(quota.charged) <= n + MAX_CHUNK
      ensures err == NoError || err == LimitExceeded || err == ConsumeError ==> quota.charged == old(quota.charged) + n
      ensures err == ChargeWrite(|buffers[i]|, script, 0).err
    {
      ConcatUpTo(buffers, i);
      n, err := WriteOnAccount(buffers[i], script);
      ConcatWithin(buffers, i, n);
    }

    /**
     `io.Copy` into this writer: one `Write` for each buffer read, until the first error. However many
     buffers there are, at most one chunk is paid for and not delivered, and what is delivered is a prefix
     of what was read. The error is that of the first write that fails.
     */
    method Copy(buffers: seq<seq<T>>, scripts: seq<seq<Tick>>) returns (written: nat, err: WriteError)
      requires |scripts| == |buffers|
      requires forall i :: 0 <= i < |buffers| ==> |buffers[i]| < |scripts[i]|
      requires quota != null
      modifies w, quota
      ensures written <= |Concat(buffers)| && w.data == old(w.data) + Concat(buffers)[..written]
      ensures written <= quota.charged - old(quota.charged) <= written + MAX_CHUNK
      ensures err == NoError ==> written == |Concat(buffers)| && quota.charged == old(quota.charged) + written
      ensures err == LimitExceeded || err == ConsumeError ==> quota.charged == old(quota.charged) + written
      ensures err == NoError ==> WritesSucceed(buffers, scripts, |buffers|)
      ensures err != NoError ==> exists i :: FailsFirst(buffers, scripts, i, err)
    {
      written := 0;
      err := NoError;
      for i := 0 to |buffers|
        invariant err == NoError && WritesSucceed(buffers, scripts, i)
        invariant written == |Concat(buffers[..i])| && quota.charged == old(quota.charged) + written
        invariant w.data == old(w.data) + Concat(buffers[..i])
      {
        var n;
        n, err := CopyNext(buffers, i, scripts[i], old(w.data));
        written := written + n;
        if err != NoError {
          assert FailsFirst(buffers, scripts, i, err);
          return;
        }
      }
      assert buffers[..|buffers|] == buffers;
    }
  }

  /** The first `n` writes of a copy succeed. */
  ghost predicate WritesSucceed<T>(buffers: seq<seq<T>>, scripts: seq<seq<Tick>>, n: nat)
    requires n <= |buffers| == |scripts| && forall i :: 0 <= i < |buffers| ==> |buffers[i]| < |scripts[i]|
  {
    forall i :: 0 <= i < n ==> ChargeWrite(|buffers[i]|, scripts[i], 0).err == NoError
  }

  /** Write `i` of a copy is the first that fails, with this error. */
  ghost predicate FailsFirst<T>(buffers: seq<seq<T>>, scripts: seq<seq<Tick>>, i: nat, err: WriteError)
    requires |buffers| == |scripts| && forall i :: 0 <= i < |buffers| ==> |buffers[i]| < |scripts[i]|
  {
    i < |buffers| && WritesSucceed(buffers, scripts, i) && err == ChargeWrite(|buffers[i]|, scripts[i], 0).err != NoError
  }

  function Concat<T>(parts: seq<seq<T>>): seq<T> {
    if parts == [] then [] else Concat(parts[..|parts| - 1]) + parts[|parts| - 1]
  }

  lemma ConcatUpTo<T>(parts: seq<seq<T>>, i: nat)
    requires i < |parts|
    ensures |Concat(parts[..i + 1])| == |Concat(parts[..i])| + |parts[i]| <= |Concat(parts)|
  {
    ConcatPrefix(parts, i);
  }

  lemma ConcatWithin<T>(parts: seq<seq<T>>, i: nat, n: nat)
    requires i < |parts| && n <= |parts[i]|
    ensures var done := Concat(parts[..i]);
            && |done| + n <= |Concat(parts)|
            && Concat(parts)[..|done| + n] == done + parts[i][..n]
            && (n == |parts[i]| ==> Concat(parts[..i + 1]) == done + parts[i][..n])
  {
    ConcatPrefix(parts, i);
    assert parts[i][..|parts[i]|] == parts[i];
  }

  lemma {:induction false} ConcatPrefix<T>(parts: seq<seq<T>>, i: nat)
    requires i < |parts|
    ensures Concat(parts[..i + 1]) == Concat(parts[..i]) + parts[i]
    ensures Concat(parts[..i + 1]) <= Concat(parts)
  {
    assert parts[..i + 1][..i] == parts[..i];
    if i + 1 == |parts| {
      assert parts[..i + 1] == parts;
    } else {
      var front := parts[..|parts| - 1];
      ConcatPrefix(front, i);
      assert front[..i + 1] == parts[..i + 1];
    }
  }
}
