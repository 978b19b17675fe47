/**
 The requests and copies of `proxyToTunnel` in internal/ingress/ingress.go on one quota. A stream that
 buys a chunk holds a call of the quota protocol until it returns, and the SQL statements of all calls
 interleave; so do the streams.
 */
module ChargedStreams {
  import opened Sums
  import opened Quota
  import Q = QuotaRuns
  import CW = ChargingWriter

  /** The reservation for a request of this many bytes, or one direction of a copy. */
  datatype Kind = Request(size: nat) | Copy

  /** The largest chunk a stream buys. */
  function Cap(kind: Kind): nat { if kind.Copy? then CW.MAX_CHUNK else kind.size }

  /**
   Paid: a chunk has been bought and not written yet. Denied: a copy that is about to close its connection.
   Limited: it has done so and returned the limit error. Halted: any other end. None of the last three writes again.
   */
  datatype Phase = Open | Buying(id: nat, chunk: nat) | Paid(chunk: nat) | Denied | Limited | Halted

  /** The two directions of a copy share `conn`; `unmetered` counts the bytes let through without a charge. */
  datatype Stream = Stream(user: nat, exempt: bool, kind: Kind, conn: nat, phase: Phase,
                           charged: int, unmetered: int, delivered: int)

  /** `owner` says which stream made a call, `closed` which connections take no more bytes. */
  datatype State = State(quota: Q.System, owner: seq<nat>, streams: seq<Stream>, closed: set<nat>)

  datatype Event =
    | OpenStream(user: nat, exempt: bool, kind: Kind, conn: nat)
    | Ask(i: nat, day: int, chunk: nat)                  // the `consume` closure is called
    | Statement(id: nat, fault: bool, today: int)        // a call executes its next SQL statement
    | Answer(i: nat)                                     // the closure returns
    | Deliver(i: nat, n: nat, failed: bool)
    | OnLimit(i: nat)                                    // a denied copy closes both directions
    | Close(conn: nat)                                   // either side hangs up

  predicate Enabled(s: State, e: Event) {
    match e
    case OpenStream(_, _, _, _) => true
    case Close(_) => true
    case OnLimit(i) => i < |s.streams| && s.streams[i].phase.Denied?
    case Ask(i, _, chunk) => i < |s.streams| && s.streams[i].phase.Open? && 0 < chunk <= Cap(s.streams[i].kind)
    case Statement(id, _, _) => id < |s.quota.calls| && id < |s.owner| && s.owner[id] < |s.streams|
    case Answer(i) =>
      && i < |s.streams| && s.streams[i].phase.Buying?
      && s.streams[i].phase.id < |s.quota.calls| && s.quota.calls[s.streams[i].phase.id].pc.Returned?
    case Deliver(i, n, failed) =>
      && i < |s.streams| && s.streams[i].phase.Paid? && n <= s.streams[i].phase.chunk
      && (s.streams[i].conn in s.closed ==> n == 0 && failed)
  }

  /** What a call has charged so far. */
  function ChargeOf(c: Q.Call): int { Charge(c.args, Q.IsGranted(c.pc)) }

  /** The closure allows what the quota grants, and fails open if the quota reports an error. */
  predicate Allows(pc: Pc) { pc.Returned? && (pc.verdict == Granted || pc.err) }

  function Next(s: State, e: Event, limit: int): State
    requires Enabled(s, e)
  {
    match e
    case OpenStream(user, exempt, kind, conn) =>
      s.(streams := s.streams + [Stream(user, exempt, kind, conn, Open, 0, 0, 0)])
    case Close(conn) => s.(closed := s.closed + {conn})
    case Ask(i, day, chunk) =>
      var st := s.streams[i];
      if st.exempt || limit <= 0 then
        s.(streams := s.streams[i := st.(phase := Paid(chunk), unmetered := st.unmetered + chunk)])
      else
        State(Q.Next(s.quota, Q.Start(Args(st.user, day, chunk, limit))), s.owner + [i],
              s.streams[i := st.(phase := Buying(|s.quota.calls|, chunk))], s.closed)
    case Statement(id, fault, today) =>
      var quota := Q.Next(s.quota, Q.Run(id, fault, today));
      var st := s.streams[s.owner[id]];
      var more := ChargeOf(quota.calls[id]) - ChargeOf(s.quota.calls[id]);
      State(quota, s.owner, s.streams[s.owner[id] := st.(charged := st.charged + more)], s.closed)
    case Answer(i) =>
      var st := s.streams[i];
      var pc := s.quota.calls[st.phase.id].pc;
      var st' :=
        if !Allows(pc) then st.(phase := if st.kind.Copy? then Denied else Halted)
        else if pc.verdict == Granted then st.(phase := Paid(st.phase.chunk))
        else st.(phase := Paid(st.phase.chunk), unmetered := st.unmetered + st.phase.chunk);
      s.(streams := s.streams[i := st'])
    case OnLimit(i) =>
      var st := s.streams[i];
      s.(streams := s.streams[i := st.(phase := Limited)], closed := s.closed + {st.conn})
    case Deliver(i, n, failed) =>
      var st := s.streams[i];
      s.(streams := s.streams[i := st.(phase := if failed || n < st.phase.chunk then Halted else Open,
                                       delivered := st.delivered + n)])
  }

  ghost predicate IsRun(rows0: Rows, limit: int, es: seq<Event>)
    decreases |es|, 0
  {
    es == [] || (IsRun(rows0, limit, es[..|es| - 1]) && Enabled(After(rows0, limit, es[..|es| - 1]), es[|es| - 1]))
  }

  ghost function After(rows0: Rows, limit: int, es: seq<Event>): State
    requires IsRun(rows0, limit, es)
    decreases |es|, 1
  {
    if es == [] then State(Q.System(rows0, []), [], [], {})
    else Next(After(rows0, limit, es[..|es| - 1]), es[|es| - 1], limit)
  }

  // ---- the quota beneath ----

  /** What an event is to the quota. */
  function QuotaEvent(s: State, e: Event, limit: int): seq<Q.Event>
    requires Enabled(s, e)
  {
    match e
    case Ask(i, day, chunk) =>
      if s.streams[i].exempt || limit <= 0 then [] else [Q.Start(Args(s.streams[i].user, day, chunk, limit))]
    case Statement(id, fault, today) => [Q.Run(id, fault, today)]
    case _ => []
  }

  ghost function QuotaEvents(rows0: Rows, limit: int, es: seq<Event>): seq<Q.Event>
    requires IsRun(rows0, limit, es)
  {
    if es == [] then []
    else
      var n := |es| - 1;
      QuotaEvents(rows0, limit, es[..n]) + QuotaEvent(After(rows0, limit, es[..n]), es[n], limit)
  }

  lemma NextIsQuotaEvent(s: State, e: Event, limit: int)
    requires Enabled(s, e)
    ensures var q := QuotaEvent(s, e, limit);
            Next(s, e, limit).quota == if q == [] then s.quota else Q.Next(s.quota, q[0])
  {
  }

  /** Whatever the streams do, the quota sees a run of its own protocol, so all that is proved of those holds. */
  lemma {:induction false} QuotaSeesARun(rows0: Rows, limit: int, es: seq<Event>)
    requires IsRun(rows0, limit, es)
    ensures After(rows0, limit, es).quota == Q.After(rows0, QuotaEvents(rows0, limit, es))
  {
    if es != [] {
      var n := |es| - 1;
      var s := After(rows0, limit, es[..n]);
      QuotaSeesARun(rows0, limit, es[..n]);
      NextIsQuotaEvent(s, es[n], limit);
      var q, before := QuotaEvent(s, es[n], limit), QuotaEvents(rows0, limit, es[..n]);
      if q == [] {
        assert before + q == before;
      } else {
        assert q == [q[0]];
        Q.AfterOneMore(rows0, before, q[0]);
      }
    }
  }

  // ---- what every run keeps ----

  /** Every call is of its stream's user, under the limit, and one that has not returned is being waited for. */
  ghost predicate CallOk(s: State, limit: int, id: nat)
    requires id < |s.quota.calls| && id < |s.owner|
  {
    var c := s.quota.calls[id];
    && s.owner[id] < |s.streams|
    && var st := s.streams[s.owner[id]];
       && c.args.user == st.user && c.args.limit == limit && 0 < limit && 0 < c.args.bytes
       && (!c.pc.Returned? ==> st.phase.Buying? && st.phase.id == id)
  }

  ghost predicate CallsOk(s: State, limit: int) {
    |s.owner| == |s.quota.calls| && forall id :: 0 <= id < |s.owner| ==> CallOk(s, limit, id)
  }

  function Gap(st: Stream): int { st.charged + st.unmetered - st.delivered }

  ghost predicate StreamOk(s: State, i: nat)
    requires i < |s.streams|
  {
    var st := s.streams[i];
    && 0 <= st.delivered && 0 <= st.unmetered && 0 <= st.charged
    && match st.phase
       case Open => Gap(st) == 0
       case Buying(id, chunk) =>
         && id < |s.quota.calls| && id < |s.owner| && s.owner[id] == i
         && s.quota.calls[id].args.bytes == chunk <= Cap(st.kind) && Gap(st) == ChargeOf(s.quota.calls[id])
       case Paid(chunk) => Gap(st) == chunk <= Cap(st.kind)
       case Denied => Gap(st) == 0
       case Limited => Gap(st) == 0 && st.conn in s.closed
       case Halted => 0 <= Gap(st) <= Cap(st.kind)
  }

  ghost predicate StreamsOk(s: State) {
    forall i :: 0 <= i < |s.streams| ==> StreamOk(s, i)
  }

  ghost predicate Inv(s: State, limit: int) {
    Q.Inv(s.quota) && CallsOk(s, limit) && StreamsOk(s)
  }

  lemma ChargeOnlyGrows(q: Q.System, id: nat, fault: bool, today: int)
    requires id < |q.calls| && 0 < q.calls[id].args.bytes && 0 < q.calls[id].args.limit
    ensures var c, c' := q.calls[id], Q.Next(q, Q.Run(id, fault, today)).calls[id];
            && c'.args == c.args && 0 <= ChargeOf(c) <= ChargeOf(c') <= c.args.bytes
            && (c.pc.Returned? ==> c' == c)
            && (c.pc.Returned? ==> ChargeOf(c) == if c.pc.verdict == Granted then c.args.bytes else 0)
  {
  }

  lemma StatementKeepsStreams(s: State, limit: int, id: nat, fault: bool, today: int)
    requires Inv(s, limit) && Enabled(s, Statement(id, fault, today))
    ensures StreamsOk(Next(s, Statement(id, fault, today), limit))
  {
    var s' := Next(s, Statement(id, fault, today), limit);
    assert CallOk(s, limit, id);
    ChargeOnlyGrows(s.quota, id, fault, today);
    forall i | 0 <= i < |s'.streams|
      ensures StreamOk(s', i)
    {
      assert StreamOk(s, i);
    }
  }

  lemma StatementKeepsCalls(s: State, limit: int, id: nat, fault: bool, today: int)
    requires CallsOk(s, limit) && Enabled(s, Statement(id, fault, today))
    ensures CallsOk(Next(s, Statement(id, fault, today), limit), limit)
  {
    var s' := Next(s, Statement(id, fault, today), limit);
    forall x | 0 <= x < |s'.owner|
      ensures CallOk(s', limit, x)
    {
      assert CallOk(s, limit, x);
    }
  }

  lemma AskKeepsInv(s: State, limit: int, i: nat, day: int, chunk: nat)
    requires Inv(s, limit) && Enabled(s, Ask(i, day, chunk))
    ensures CallsOk(Next(s, Ask(i, day, chunk), limit), limit) && StreamsOk(Next(s, Ask(i, day, chunk), limit))
  {
    var s' := Next(s, Ask(i, day, chunk), limit);
    assert StreamOk(s, i);
    forall x | 0 <= x < |s'.owner|
      ensures CallOk(s', limit, x)
    {
      if x < |s.owner| {
        assert CallOk(s, limit, x);
      }
    }
    forall j | 0 <= j < |s'.streams|
      ensures StreamOk(s', j)
    {
      assert StreamOk(s, j);
    }
  }

  lemma AnswerKeepsInv(s: State, limit: int, i: nat)
    requires Inv(s, limit) && Enabled(s, Answer(i))
    ensures CallsOk(Next(s, Answer(i), limit), limit) && StreamsOk(Next(s, Answer(i), limit))
  {
    var s' := Next(s, Answer(i), limit);
    assert StreamOk(s, i) && CallOk(s, limit, s.streams[i].phase.id);
    forall x | 0 <= x < |s'.owner|
      ensures CallOk(s', limit, x)
    {
      assert CallOk(s, limit, x);
    }
    forall j | 0 <= j < |s'.streams|
      ensures StreamOk(s', j)
    {
      assert StreamOk(s, j);
    }
  }

  lemma OtherEventKeepsInv(s: State, limit: int, e: Event)
    requires Inv(s, limit) && Enabled(s, e) && (e.OpenStream? || e.Deliver? || e.OnLimit? || e.Close?)
    ensures CallsOk(Next(s, e, limit), limit) && StreamsOk(Next(s, e, limit))
  {
    var s' := Next(s, e, limit);
    forall x | 0 <= x < |s'.owner|
      ensures CallOk(s', limit, x)
    {
      assert CallOk(s, limit, x);
    }
    forall j | 0 <= j < |s'.streams|
      ensures StreamOk(s', j)
    {
      if j < |s.streams| {
        assert StreamOk(s, j);
      }
    }
  }

  lemma NextKeepsInv(s: State, limit: int, e: Event)
    requires Inv(s, limit) && Enabled(s, e)
    ensures Inv(Next(s, e, limit), limit)
  {
    NextIsQuotaEvent(s, e, limit);
    var q := QuotaEvent(s, e, limit);
    if q != [] {
      Q.NextKeepsInv(s.quota, q[0]);
    }
    match e
    case Ask(i, day, chunk) => AskKeepsInv(s, limit, i, day, chunk);
    case Statement(id, fault, today) =>
      StatementKeepsStreams(s, limit, id, fault, today);
      StatementKeepsCalls(s, limit, id, fault, today);
    case Answer(i) => AnswerKeepsInv(s, limit, i);
    case _ => OtherEventKeepsInv(s, limit, e);
  }

  /**
   In every interleaving of streams and statements, what a stream has bought and not delivered is nothing,
   one chunk, or what the call it waits for has charged so far.
   */
  lemma {:induction false} RunKeepsInv(rows0: Rows, limit: int, es: seq<Event>)
    requires NonNegative(rows0) && IsRun(rows0, limit, es)
    ensures Inv(After(rows0, limit, es), limit)
  {
    if es != [] {
      RunKeepsInv(rows0, limit, es[..|es| - 1]);
      NextKeepsInv(After(rows0, limit, es[..|es| - 1]), limit, es[|es| - 1]);
    }
  }

  /** Each stream has paid for at most one chunk, 32 KiB for a copy, that it has not delivered. */
  lemma OneChunkInVain(rows0: Rows, limit: int, es: seq<Event>, i: nat)
    requires NonNegative(rows0) && IsRun(rows0, limit, es) && i < |After(rows0, limit, es).streams|
    ensures var st := After(rows0, limit, es).streams[i];
            0 <= Gap(st) <= match st.kind { case Copy => 32 * 1024 case Request(size) => size }
  {
    RunKeepsInv(rows0, limit, es);
    var s := After(rows0, limit, es);
    assert StreamOk(s, i);
    if s.streams[i].phase.Buying? {
      assert CallOk(s, limit, s.streams[i].phase.id);
    }
  }

  /**
   Once its call has returned, the answer and the delivery are one round of the writer's loop: bought,
   delivered and halted as `OneChunk` says. A stream had bought what it delivered when it asked. It goes on if
   the quota granted the chunk, and also if the call reported an error.
   */
  lemma BuyThenDeliverIsOneChunk(s: State, limit: int, i: nat, len: nat, n: nat, failed: bool)
    requires Inv(s, limit) && Enabled(s, Answer(i)) && s.streams[i].phase.chunk == CW.Min(len, CW.MAX_CHUNK)
    requires n <= CW.Min(len, CW.MAX_CHUNK) && (s.streams[i].conn in s.closed ==> n == 0 && failed)
    ensures var pc := s.quota.calls[s.streams[i].phase.id].pc; var allowed := pc.verdict == Granted || pc.err;
            var o := CW.OneChunk(len, CW.Tick(if allowed then CW.Allowed else CW.Denied, n, failed));
            var answered := Next(s, Answer(i), limit);
            && (allowed ==> Enabled(answered, Deliver(i, n, failed))) && (!allowed ==> o.err == CW.LimitExceeded)
            && var st' := if allowed then Next(answered, Deliver(i, n, failed), limit).streams[i] else answered.streams[i];
               && st'.delivered == s.streams[i].delivered + o.written
               && st'.charged + st'.unmetered == s.streams[i].delivered + o.charged
               && st'.phase == if o.err == CW.NoError then Open else if allowed || !s.streams[i].kind.Copy? then Halted else Denied
  {
    assert StreamOk(s, i) && CallOk(s, limit, s.streams[i].phase.id);
  }

  // ---- who is metered, and who is cut off ----

  ghost predicate DeniedTo(s: State, i: nat, id: nat) {
    id < |s.quota.calls| && id < |s.owner| && s.owner[id] == i && Q.Denied(s.quota.calls[id].pc)
  }

  /** Only streams that are metered call the quota, and only a call of its own that was denied cuts a copy off. */
  ghost predicate CutOffOk(s: State, limit: int, i: nat)
    requires i < |s.streams|
  {
    var st := s.streams[i];
    && (st.exempt || limit <= 0 ==> st.charged == 0 && !st.phase.Buying?)
    && (st.phase.Denied? || st.phase.Limited? ==>
          !st.exempt && 0 < limit && st.kind.Copy? && exists id :: DeniedTo(s, i, id))
  }

  ghost predicate CutOffsOk(s: State, limit: int) {
    && (forall i :: 0 <= i < |s.streams| ==> CutOffOk(s, limit, i))
    && (forall id :: 0 <= id < |s.owner| ==> s.owner[id] < |s.streams| && !s.streams[s.owner[id]].exempt && 0 < limit)
  }

  lemma DenialStays(s: State, limit: int, e: Event, i: nat, id: nat)
    requires Inv(s, limit) && Enabled(s, e) && DeniedTo(s, i, id)
    ensures DeniedTo(Next(s, e, limit), i, id)
  {
  }

  lemma NextKeepsCutOff(s: State, limit: int, e: Event, i: nat)
    requires Inv(s, limit) && CutOffsOk(s, limit) && Enabled(s, e) && i < |Next(s, e, limit).streams|
    ensures CutOffOk(Next(s, e, limit), limit, i)
  {
    var s' := Next(s, e, limit);
    if i < |s.streams| {
      var st, st' := s.streams[i], s'.streams[i];
      assert CutOffOk(s, limit, i) && StreamOk(s, i);
      if st'.phase.Denied? && e == Answer(i) {
        assert DeniedTo(s, i, st.phase.id);
        DenialStays(s, limit, e, i, st.phase.id);
      } else if st'.phase.Denied? || st'.phase.Limited? {
        var id :| DeniedTo(s, i, id);
        DenialStays(s, limit, e, i, id);
      }
    }
  }

  lemma {:induction false} CutOffsStayOk(rows0: Rows, limit: int, es: seq<Event>)
    requires NonNegative(rows0) && IsRun(rows0, limit, es)
    ensures CutOffsOk(After(rows0, limit, es), limit)
  {
    if es != [] {
      var n := |es| - 1;
      var s := After(rows0, limit, es[..n]);
      CutOffsStayOk(rows0, limit, es[..n]);
      RunKeepsInv(rows0, limit, es[..n]);
      forall i | 0 <= i < |After(rows0, limit, es).streams|
        ensures CutOffOk(After(rows0, limit, es), limit, i)
      {
        NextKeepsCutOff(s, limit, es[n], i);
      }
    }
  }

  /** An exempt stream is never charged and never cut off for the limit; without a limit no stream is. */
  lemma ExemptIsNeverCutOff(rows0: Rows, limit: int, es: seq<Event>, i: nat)
    requires NonNegative(rows0) && IsRun(rows0, limit, es) && i < |After(rows0, limit, es).streams|
    requires After(rows0, limit, es).streams[i].exempt || limit <= 0
    ensures var st := After(rows0, limit, es).streams[i];
            st.charged == 0 && !st.phase.Buying? && !st.phase.Denied? && !st.phase.Limited?
  {
    CutOffsStayOk(rows0, limit, es);
    assert CutOffOk(After(rows0, limit, es), limit, i);
  }

  /**
   A copy is cut off for the limit only if one of its own chunks no longer fits the day's row, or the INSERT
   of its call failed for another reason than the unique index.
   */
  lemma CutOffOnlyOverLimit(rows0: Rows, limit: int, es: seq<Event>, i: nat) returns (id: nat)
    requires NonNegative(rows0) && IsRun(rows0, limit, es) && i < |After(rows0, limit, es).streams|
    requires var phase := After(rows0, limit, es).streams[i].phase; phase.Denied? || phase.Limited?
    ensures var s := After(rows0, limit, es);
            && DeniedTo(s, i, id)
            && var a := s.quota.calls[id].args;
               && a.user == s.streams[i].user && a.limit == limit && 0 < limit
               && (Used(s.quota.rows, a.RowKey()) + a.bytes > limit
                   || exists m: nat :: Q.InsertFailed(rows0, QuotaEvents(rows0, limit, es), m, id))
  {
    RunKeepsInv(rows0, limit, es);
    CutOffsStayOk(rows0, limit, es);
    var s := After(rows0, limit, es);
    assert CutOffOk(s, limit, i);
    id :| DeniedTo(s, i, id);
    assert CallOk(s, limit, id);
    QuotaSeesARun(rows0, limit, es);
    Q.NoSpuriousDenial(rows0, QuotaEvents(rows0, limit, es), id);
  }

  /** No event delivers anything over a closed connection, or opens it again. */
  lemma ClosedDeliversNothing(s: State, limit: int, e: Event)
    requires Enabled(s, e)
    ensures var s' := Next(s, e, limit);
            && s.closed <= s'.closed && |s.streams| <= |s'.streams|
            && (forall i :: 0 <= i < |s.streams| ==> s'.streams[i].conn == s.streams[i].conn)
            && (forall i :: 0 <= i < |s.streams| && s.streams[i].conn in s.closed ==>
                  s'.streams[i].delivered == s.streams[i].delivered)
  {
  }

  ghost predicate SameAndClosed(s: State, s': State, j: nat) {
    && j < |s.streams| && j < |s'.streams| && s'.streams[j].conn == s.streams[j].conn && s'.streams[j].conn in s'.closed
    && s'.streams[j].delivered == s.streams[j].delivered
  }

  lemma {:induction false} NothingAfterClosing(rows0: Rows, limit: int, es: seq<Event>, more: seq<Event>, j: nat)
    requires IsRun(rows0, limit, es) && IsRun(rows0, limit, es + more)
    requires j < |After(rows0, limit, es).streams|
    requires After(rows0, limit, es).streams[j].conn in After(rows0, limit, es).closed
    ensures SameAndClosed(After(rows0, limit, es), After(rows0, limit, es + more), j)
  {
    if more == [] {
      assert es + more == es;
    } else {
      var n := |more| - 1;
      assert (es + more)[..|es + more| - 1] == es + more[..n];
      NothingAfterClosing(rows0, limit, es, more[..n], j);
      ClosedDeliversNothing(After(rows0, limit, es + more[..n]), limit, more[n]);
    }
  }

  /**
   Once one direction of a copy has returned the limit error, neither direction delivers anything, whatever
   happens. Between the denial and the closing, which comes before that return, the other direction still may.
   */
  lemma LimitEndsBothDirections(rows0: Rows, limit: int, es: seq<Event>, more: seq<Event>, i: nat, j: nat)
    requires NonNegative(rows0) && IsRun(rows0, limit, es) && IsRun(rows0, limit, es + more)
    requires var s := After(rows0, limit, es);
             i < |s.streams| && s.streams[i].phase.Limited? && j < |s.streams| && s.streams[j].conn == s.streams[i].conn
    ensures SameAndClosed(After(rows0, limit, es), After(rows0, limit, es + more), j)
  {
    RunKeepsInv(rows0, limit, es);
    assert StreamOk(After(rows0, limit, es), i);
    NothingAfterClosing(rows0, limit, es, more, j);
  }

  // ---- accounting ----

  function ChargedBy(user: nat): Stream -> int { (st: Stream) => if st.user == user then st.charged else 0 }
  function DeliveredBy(user: nat): Stream -> int { (st: Stream) => if st.user == user then st.delivered else 0 }
  function UnmeteredBy(user: nat): Stream -> int { (st: Stream) => if st.user == user then st.unmetered else 0 }
  function BoughtBy(user: nat): Stream -> int {
    (st: Stream) => if st.user == user then st.charged + st.unmetered else 0
  }

  /** An event adds to one row exactly what it adds to the charges of a stream of that row's user. */
  lemma EventCharges(s: State, limit: int, e: Event)
    requires Inv(s, limit) && Enabled(s, e)
    ensures var s' := Next(s, e, limit);
            || (s'.quota.rows == s.quota.rows
                && forall i :: 0 <= i < |s.streams| ==> s'.streams[i].charged == s.streams[i].charged)
            || (e.Statement?
                && var i, a := s.owner[e.id], s.quota.calls[e.id].args; var st := s.streams[i];
                   && Used(s.quota.rows, a.RowKey()) + a.bytes <= limit && a.user == st.user
                   && s'.quota.rows == s.quota.rows[a.RowKey() := Used(s.quota.rows, a.RowKey()) + a.bytes]
                   && s'.streams == s.streams[i := st.(charged := st.charged + a.bytes)])
  {
    if e.Statement? {
      assert CallOk(s, limit, e.id);
      Q.StepCharges(s.quota, Q.Run(e.id, e.fault, e.today));
    }
  }

  lemma OtherEventsChargeNothing(s: State, limit: int, e: Event, user: nat)
    requires Enabled(s, e) && !e.Statement?
    ensures SumBy(Next(s, e, limit).streams, ChargedBy(user)) == SumBy(s.streams, ChargedBy(user))
  {
    var s' := Next(s, e, limit);
    match e
    case OpenStream(_, _, _, _) => SumByAppend(s.streams, s'.streams[|s.streams|], ChargedBy(user));
    case Ask(i, _, _) => SumByUpdate(s.streams, i, s'.streams[i], ChargedBy(user));
    case Answer(i) => SumByUpdate(s.streams, i, s'.streams[i], ChargedBy(user));
    case Deliver(i, _, _) => SumByUpdate(s.streams, i, s'.streams[i], ChargedBy(user));
    case OnLimit(i) => SumByUpdate(s.streams, i, s'.streams[i], ChargedBy(user));
    case Close(_) =>
  }

  /** What an event adds to the sum of a user's charges. */
  lemma SumAfterEvent(s: State, limit: int, e: Event, user: nat)
    requires Inv(s, limit) && Enabled(s, e)
    ensures var s' := Next(s, e, limit);
            if s'.quota.rows == s.quota.rows then SumBy(s'.streams, ChargedBy(user)) == SumBy(s.streams, ChargedBy(user))
            else
              && e.Statement?
              && var a := s.quota.calls[e.id].args;
                 && Used(s.quota.rows, a.RowKey()) + a.bytes <= limit
                 && s'.quota.rows == s.quota.rows[a.RowKey() := Used(s.quota.rows, a.RowKey()) + a.bytes]
                 && SumBy(s'.streams, ChargedBy(user)) == SumBy(s.streams, ChargedBy(user)) + if a.user == user then a.bytes else 0
  {
    EventCharges(s, limit, e);
    if e.Statement? {
      assert CallOk(s, limit, e.id);
      var i := s.owner[e.id];
      SumByUpdate(s.streams, i, Next(s, e, limit).streams[i], ChargedBy(user));
    } else {
      OtherEventsChargeNothing(s, limit, e, user);
    }
  }

  lemma TotalAfterEvent(s: State, limit: int, e: Event, user: nat)
    requires Inv(s, limit) && Enabled(s, e)
    ensures var s' := Next(s, e, limit);
            Total(s'.quota.rows, user) - Total(s.quota.rows, user)
              == SumBy(s'.streams, ChargedBy(user)) - SumBy(s.streams, ChargedBy(user))
  {
    SumAfterEvent(s, limit, e, user);
    if Next(s, e, limit).quota.rows != s.quota.rows {
      var a := s.quota.calls[e.id].args;
      TotalAfterCharge(s.quota.rows, a.RowKey(), a.bytes, user);
    }
  }

  /** The user's all-days total has grown by exactly what the user's streams were charged. */
  lemma {:induction false} TotalIsCharged(rows0: Rows, limit: int, es: seq<Event>, user: nat)
    requires NonNegative(rows0) && IsRun(rows0, limit, es)
    ensures var s := After(rows0, limit, es);
            Total(s.quota.rows, user) == Total(rows0, user) + SumBy(s.streams, ChargedBy(user))
  {
    if es != [] {
      var n := |es| - 1;
      var s := After(rows0, limit, es[..n]);
      TotalIsCharged(rows0, limit, es[..n], user);
      RunKeepsInv(rows0, limit, es[..n]);
      TotalAfterEvent(s, limit, es[n], user);
    }
  }

  lemma DeliveredIsBought(s: State, limit: int, user: nat)
    requires Inv(s, limit)
    ensures SumBy(s.streams, DeliveredBy(user)) <= SumBy(s.streams, ChargedBy(user)) + SumBy(s.streams, UnmeteredBy(user))
  {
    forall i | 0 <= i < |s.streams|
      ensures DeliveredBy(user)(s.streams[i]) <= BoughtBy(user)(s.streams[i])
    {
      assert StreamOk(s, i);
      if s.streams[i].phase.Buying? {
        assert CallOk(s, limit, s.streams[i].phase.id);
      }
    }
    SumByLe(s.streams, DeliveredBy(user), BoughtBy(user));
    SumByPlus(s.streams, BoughtBy(user), ChargedBy(user), UnmeteredBy(user));
  }

  /**
   Over any streams of a user, with any database errors, the bytes delivered are at most the bytes the
   user's counters have grown by, plus what was let through without a charge.
   */
  lemma DeliveredIsPaidFor(rows0: Rows, limit: int, es: seq<Event>, user: nat)
    requires NonNegative(rows0) && IsRun(rows0, limit, es)
    ensures var s := After(rows0, limit, es);
            SumBy(s.streams, DeliveredBy(user))
              <= Total(s.quota.rows, user) - Total(rows0, user) + SumBy(s.streams, UnmeteredBy(user))
  {
    RunKeepsInv(rows0, limit, es);
    TotalIsCharged(rows0, limit, es, user);
    DeliveredIsBought(After(rows0, limit, es), limit, user);
  }

  // ---- without errors ----

  /** No stream of the user is exempt, no call of the user's has reported an error, and nothing went unmetered. */
  ghost predicate NothingUnmetered(s: State, user: nat) {
    && (forall i :: 0 <= i < |s.streams| && s.streams[i].user == user ==>
          s.streams[i].unmetered == 0 && !s.streams[i].exempt)
    && (forall id :: 0 <= id < |s.quota.calls| && s.quota.calls[id].args.user == user ==>
          !(s.quota.calls[id].pc.Returned? && s.quota.calls[id].pc.err))
  }

  /** The event is not an exempt stream of the user, or a failing statement of a call of the user's. */
  ghost predicate Faultless(s: State, e: Event, user: nat)
    requires Enabled(s, e)
  {
    match e
    case OpenStream(v, exempt, _, _) => v == user ==> !exempt
    case Statement(id, fault, _) => s.quota.calls[id].args.user == user ==> !fault
    case _ => true
  }

  ghost predicate WithoutErrors(rows0: Rows, limit: int, es: seq<Event>, user: nat)
    requires IsRun(rows0, limit, es)
  {
    es == [] || (WithoutErrors(rows0, limit, es[..|es| - 1], user)
                 && Faultless(After(rows0, limit, es[..|es| - 1]), es[|es| - 1], user))
  }

  lemma FaultlessUnmetered(s: State, limit: int, e: Event, user: nat)
    requires Inv(s, limit) && 0 < limit && Enabled(s, e) && Faultless(s, e, user) && NothingUnmetered(s, user)
    ensures NothingUnmetered(Next(s, e, limit), user)
  {
    match e
    case Statement(id, _, _) => assert CallOk(s, limit, id);
    case Answer(i) => assert StreamOk(s, i) && CallOk(s, limit, s.streams[i].phase.id);
    case _ =>
  }

  /**
   Nothing is let through to a user without a charge if there is a limit, the user is not exempt and no
   statement of the user's calls fails, whatever happens to other users.
   */
  lemma {:induction false} NothingIsUnmetered(rows0: Rows, limit: int, es: seq<Event>, user: nat)
    requires NonNegative(rows0) && IsRun(rows0, limit, es) && 0 < limit && WithoutErrors(rows0, limit, es, user)
    ensures NothingUnmetered(After(rows0, limit, es), user)
  {
    if es != [] {
      var n := |es| - 1;
      NothingIsUnmetered(rows0, limit, es[..n], user);
      RunKeepsInv(rows0, limit, es[..n]);
      FaultlessUnmetered(After(rows0, limit, es[..n]), limit, es[n], user);
    }
  }

  // ---- one day ----

  /** A stream of the user asks on this day, or something else happens. */
  ghost predicate AsksOn(s: State, e: Event, user: nat, day: int)
    requires Enabled(s, e)
  {
    e.Ask? && s.streams[e.i].user == user ==> e.day == day
  }

  ghost predicate OnDay(rows0: Rows, limit: int, es: seq<Event>, user: nat, day: int)
    requires IsRun(rows0, limit, es)
  {
    es == [] || (OnDay(rows0, limit, es[..|es| - 1], user, day)
                 && AsksOn(After(rows0, limit, es[..|es| - 1]), es[|es| - 1], user, day))
  }

  ghost predicate CallsOn(s: State, user: nat, day: int) {
    forall id :: 0 <= id < |s.quota.calls| && s.quota.calls[id].args.user == user ==> s.quota.calls[id].args.day == day
  }

  lemma {:induction false} OneDayCalls(rows0: Rows, limit: int, es: seq<Event>, user: nat, day: int)
    requires IsRun(rows0, limit, es) && OnDay(rows0, limit, es, user, day)
    ensures CallsOn(After(rows0, limit, es), user, day)
  {
    if es != [] {
      OneDayCalls(rows0, limit, es[..|es| - 1], user, day);
    }
  }

  /** If a user's streams ask on one day only, the row of that day has grown by exactly what they were charged. */
  lemma {:induction false} OneDayCharges(rows0: Rows, limit: int, es: seq<Event>, user: nat, day: int)
    requires NonNegative(rows0) && IsRun(rows0, limit, es) && OnDay(rows0, limit, es, user, day)
    ensures var s := After(rows0, limit, es);
            Used(s.quota.rows, Key(user, day)) == Used(rows0, Key(user, day)) + SumBy(s.streams, ChargedBy(user))
  {
    if es != [] {
      var n := |es| - 1;
      OneDayCharges(rows0, limit, es[..n], user, day);
      OneDayCalls(rows0, limit, es[..n], user, day);
      RunKeepsInv(rows0, limit, es[..n]);
      SumAfterEvent(After(rows0, limit, es[..n]), limit, es[n], user);
    }
  }

  lemma {:induction false} RowStaysWithin(rows0: Rows, limit: int, es: seq<Event>, k: Key)
    requires NonNegative(rows0) && IsRun(rows0, limit, es) && Used(rows0, k) <= limit
    ensures Used(After(rows0, limit, es).quota.rows, k) <= limit
  {
    if es != [] {
      var n := |es| - 1;
      RowStaysWithin(rows0, limit, es[..n], k);
      RunKeepsInv(rows0, limit, es[..n]);
      SumAfterEvent(After(rows0, limit, es[..n]), limit, es[n], k.user);
    }
  }

  /** On every day, however many a run spans: a user's calls charge at most what was left of the limit. */
  lemma EveryDayWithinLimit(rows0: Rows, limit: int, es: seq<Event>, user: nat, day: int)
    requires NonNegative(rows0) && IsRun(rows0, limit, es) && Used(rows0, Key(user, day)) <= limit
    ensures var s := After(rows0, limit, es);
            SumBy(s.quota.calls, Q.ChargeTo(Key(user, day))) <= limit - Used(rows0, Key(user, day))
  {
    RowStaysWithin(rows0, limit, es, Key(user, day));
    QuotaSeesARun(rows0, limit, es);
    Q.RowIsSumOfCharges(rows0, QuotaEvents(rows0, limit, es), Key(user, day));
  }

  /**
   The daily limit. A user whose streams ask on one day is charged at most what was left of its limit, and
   delivered at most that plus what was let through without a charge, with any database errors and whatever
   other users do.
   */
  lemma DailyLimitHolds(rows0: Rows, limit: int, es: seq<Event>, user: nat, day: int)
    requires NonNegative(rows0) && IsRun(rows0, limit, es) && OnDay(rows0, limit, es, user, day)
    requires Used(rows0, Key(user, day)) <= limit
    ensures SumBy(After(rows0, limit, es).streams, ChargedBy(user)) <= limit - Used(rows0, Key(user, day))
    ensures var s := After(rows0, limit, es);
            SumBy(s.streams, DeliveredBy(user)) <= limit - Used(rows0, Key(user, day)) + SumBy(s.streams, UnmeteredBy(user))
  {
    RunKeepsInv(rows0, limit, es);
    OneDayCharges(rows0, limit, es, user, day);
    RowStaysWithin(rows0, limit, es, Key(user, day));
    DeliveredIsBought(After(rows0, limit, es), limit, user);
  }

  /** A user who is not exempt and meets no database error: delivered <= charged <= what was left of the limit. */
  lemma DeliveredWithinLimit(rows0: Rows, limit: int, es: seq<Event>, user: nat, day: int)
    requires NonNegative(rows0) && IsRun(rows0, limit, es)
    requires OnDay(rows0, limit, es, user, day) && WithoutErrors(rows0, limit, es, user)
    requires 0 < limit && Used(rows0, Key(user, day)) <= limit
    ensures var s := After(rows0, limit, es);
            SumBy(s.streams, DeliveredBy(user)) <= SumBy(s.streams, ChargedBy(user)) <= limit - Used(rows0, Key(user, day))
  {
    var s := After(rows0, limit, es);
    NothingIsUnmetered(rows0, limit, es, user);
    SumByBounds(s.streams, UnmeteredBy(user), 0);
    RunKeepsInv(rows0, limit, es);
    DeliveredIsBought(s, limit, user);
    DailyLimitHolds(rows0, limit, es, user, day);
  }
}
