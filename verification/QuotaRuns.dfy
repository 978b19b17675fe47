/**
 Any number of `ConsumeUserBandwidthWithinLimit` calls, interleaved statement by statement. The protocol
 is linearizable, refuses nobody without cause, and every counter is the sum of the charges made to it.
 */
module QuotaRuns {
  import opened Sums
  import opened Quota

  datatype Call = Call(args: Args, pc: Pc)

  datatype System = System(rows: Rows, calls: seq<Call>)

  /** A new call passes its first checks, or call `id` executes its next statement. */
  datatype Event =
    | Start(args: Args)
    | Run(id: nat, fault: bool, today: int)

  function Next(s: System, e: Event): System {
    match e
    case Start(a) => System(s.rows, s.calls + [Call(a, Begin(a))])
    case Run(id, fault, today) =>
      if id < |s.calls| then
        var c := s.calls[id];
        var (rows, pc) := Step(s.rows, c.args, c.pc, fault, today);
        System(rows, s.calls[id := Call(c.args, pc)])
      else s
  }

  function After(rows0: Rows, es: seq<Event>): System {
    if es == [] then System(rows0, []) else Next(After(rows0, es[..|es| - 1]), es[|es| - 1])
  }

  // ---- verdicts ----

  predicate HasVerdict(pc: Pc, v: Verdict) {
    (pc.ReadBack? && pc.verdict == v) || (pc.Returned? && pc.verdict == v)
  }

  predicate IsGranted(pc: Pc) { HasVerdict(pc, Granted) }

  predicate IsRefused(pc: Pc) { HasVerdict(pc, Refused) }

  predicate Decided(pc: Pc) { IsGranted(pc) || IsRefused(pc) }

  /** Refused, or past a last UPDATE that matched no row. */
  predicate OutOfRoom(pc: Pc) { IsRefused(pc) || pc == Inserting(ATTEMPTS - 1) }

  /** What the rows say about a call that has come as far as `pc`. */
  ghost predicate CallOk(rows: Rows, a: Args, pc: Pc) {
    var k := a.RowKey();
    && (pc.Trying? || pc.Inserting? ==>
          && 0 < a.bytes <= a.limit && pc.attempt < ATTEMPTS
          && (0 < pc.attempt ==> k in rows))
    && (OutOfRoom(pc) ==> 0 < a.bytes && 0 < a.limit && Used(rows, k) + a.bytes > a.limit)
    && (OutOfRoom(pc) && a.bytes <= a.limit ==> k in rows)
    && (IsGranted(pc) ==> Charge(a, true) <= Used(rows, k))
  }

  ghost predicate Inv(s: System) {
    && NonNegative(s.rows)
    && forall id :: 0 <= id < |s.calls| ==> CallOk(s.rows, s.calls[id].args, s.calls[id].pc)
  }

  lemma CallOkGrows(rows: Rows, rows': Rows, a: Args, pc: Pc)
    requires CallOk(rows, a, pc) && Grows(rows, rows') && NonNegative(rows')
    ensures CallOk(rows', a, pc)
  {
  }

  /** One statement keeps what is known about its own call, and only lets the rows grow. */
  lemma StepKeepsCallOk(rows: Rows, a: Args, pc: Pc, fault: bool, today: int)
    requires NonNegative(rows) && CallOk(rows, a, pc)
    ensures var (rows', pc') := Step(rows, a, pc, fault, today);
            NonNegative(rows') && Grows(rows, rows') && CallOk(rows', a, pc')
  {
  }

  lemma NextKeepsInv(s: System, e: Event)
    requires Inv(s)
    ensures Inv(Next(s, e)) && Grows(s.rows, Next(s, e).rows)
  {
    if e.Run? && e.id < |s.calls| {
      var c := s.calls[e.id];
      StepKeepsCallOk(s.rows, c.args, c.pc, e.fault, e.today);
      var s' := Next(s, e);
      forall id | 0 <= id < |s'.calls|
        ensures CallOk(s'.rows, s'.calls[id].args, s'.calls[id].pc)
      {
        if id != e.id {
          CallOkGrows(s.rows, s'.rows, s.calls[id].args, s.calls[id].pc);
        }
      }
    }
  }

  /** In every interleaving, rows never disappear and usage only grows. */
  lemma {:induction false} RowsOnlyGrow(rows0: Rows, es: seq<Event>)
    requires NonNegative(rows0)
    ensures Inv(After(rows0, es)) && Grows(rows0, After(rows0, es).rows)
  {
    if es != [] {
      RowsOnlyGrow(rows0, es[..|es| - 1]);
      NextKeepsInv(After(rows0, es[..|es| - 1]), es[|es| - 1]);
    }
  }

  // ---- linearizability ----

  /** The call, if any, whose verdict falls in this step. */
  function Commits(s: System, e: Event): seq<nat> {
    match e
    case Start(a) => if Decided(Begin(a)) then [|s.calls|] else []
    case Run(id, _, _) =>
      if id < |s.calls| && !Decided(s.calls[id].pc) && Decided(Next(s, e).calls[id].pc) then [id] else []
  }

  /** The calls in the order in which their verdicts fall. */
  function Linearization(rows0: Rows, es: seq<Event>): seq<nat> {
    if es == [] then []
    else
      var n := |es| - 1;
      Linearization(rows0, es[..n]) + Commits(After(rows0, es[..n]), es[n])
  }

  function ArgsOf(calls: seq<Call>, ids: seq<nat>): (ops: seq<Args>)
    requires forall i :: 0 <= i < |ids| ==> ids[i] < |calls|
    ensures |ops| == |ids|
    ensures forall i :: 0 <= i < |ids| ==> ops[i] == calls[ids[i]].args
  {
    seq(|ids|, i requires 0 <= i < |ids| => calls[ids[i]].args)
  }

  /**
   The refinement: a step in which a verdict falls does, at once, what the atomic operation does, and
   answers what it answers. Every other step leaves the rows and the decided calls alone.
   */
  lemma StepRefinesAtomic(s: System, e: Event)
    requires Inv(s)
    ensures var s' := Next(s, e); var c := Commits(s, e);
            && |s.calls| <= |s'.calls|
            && (forall id :: 0 <= id < |s.calls| ==> s'.calls[id].args == s.calls[id].args)
            && (forall id :: 0 <= id < |s.calls| && Decided(s.calls[id].pc) ==>
                  Decided(s'.calls[id].pc) && (IsGranted(s'.calls[id].pc) <==> IsGranted(s.calls[id].pc)))
            && (forall id :: 0 <= id < |s'.calls| && Decided(s'.calls[id].pc) ==>
                  c == [id] || (id < |s.calls| && Decided(s.calls[id].pc)))
            && (c == [] ==> s'.rows == s.rows)
            && (c != [] ==>
                  && |c| == 1 && c[0] < |s'.calls| && Decided(s'.calls[c[0]].pc)
                  && (c[0] < |s.calls| ==> !Decided(s.calls[c[0]].pc))
                  && (s'.rows, IsGranted(s'.calls[c[0]].pc)) == Atomic(s.rows, s'.calls[c[0]].args))
  {
    if e.Run? && e.id < |s.calls| {
      assert CallOk(s.rows, s.calls[e.id].args, s.calls[e.id].pc);
    }
  }

  /** The answer the `i`-th operation of a sequential replay gets. */
  function ReplayAnswer(rows0: Rows, ops: seq<Args>, i: nat): bool
    requires i < |ops|
  {
    Atomic(Replay(rows0, ops[..i]), ops[i]).1
  }

  /** `lin` lists every decided call, and each once. */
  ghost predicate ListsDecided(s: System, lin: seq<nat>) {
    && (forall i :: 0 <= i < |lin| ==> lin[i] < |s.calls|)
    && (forall i, j :: 0 <= i < j < |lin| ==> lin[i] != lin[j])
    && (forall id: nat :: id in lin <==> id < |s.calls| && Decided(s.calls[id].pc))
  }

  /** Replaying the atomic operations in the order `lin` gives the rows and the answers of `s`. */
  ghost predicate Explains(rows0: Rows, s: System, lin: seq<nat>)
    requires forall i :: 0 <= i < |lin| ==> lin[i] < |s.calls|
  {
    && s.rows == Replay(rows0, ArgsOf(s.calls, lin))
    && (forall i :: 0 <= i < |lin| ==>
          (IsGranted(s.calls[lin[i]].pc) <==> ReplayAnswer(rows0, ArgsOf(s.calls, lin), i)))
  }

  ghost predicate IsLinearization(rows0: Rows, s: System, lin: seq<nat>) {
    ListsDecided(s, lin) && Explains(rows0, s, lin)
  }

  lemma ReplayExtends(rows0: Rows, ops: seq<Args>, a: Args)
    ensures Replay(rows0, ops + [a]) == Atomic(Replay(rows0, ops), a).0
    ensures ReplayAnswer(rows0, ops + [a], |ops|) == Atomic(Replay(rows0, ops), a).1
    ensures forall i :: 0 <= i < |ops| ==> ReplayAnswer(rows0, ops + [a], i) == ReplayAnswer(rows0, ops, i)
  {
    assert (ops + [a])[..|ops|] == ops;
    forall i | 0 <= i < |ops|
      ensures ReplayAnswer(rows0, ops + [a], i) == ReplayAnswer(rows0, ops, i)
    {
      assert (ops + [a])[..i] == ops[..i];
    }
  }

  lemma LinearizationStutter(rows0: Rows, s: System, e: Event, lin: seq<nat>)
    requires Inv(s) && IsLinearization(rows0, s, lin) && Commits(s, e) == []
    ensures IsLinearization(rows0, Next(s, e), lin)
  {
    StepRefinesAtomic(s, e);
    assert ArgsOf(Next(s, e).calls, lin) == ArgsOf(s.calls, lin);
    forall i | 0 <= i < |lin|
      ensures IsGranted(Next(s, e).calls[lin[i]].pc) == IsGranted(s.calls[lin[i]].pc)
    {
      assert lin[i] in lin;
    }
  }

  lemma CommitListsDecided(s: System, e: Event, lin: seq<nat>, id: nat)
    requires Inv(s) && ListsDecided(s, lin) && Commits(s, e) == [id]
    ensures ListsDecided(Next(s, e), lin + [id])
  {
    StepRefinesAtomic(s, e);
    assert id !in lin;
    var s' := Next(s, e);
    forall x: nat
      ensures x in lin + [id] <==> x < |s'.calls| && Decided(s'.calls[x].pc)
    {
      assert x in lin + [id] <==> x in lin || x == id;
    }
  }

  lemma ExplainsOneMore(rows0: Rows, s: System, s': System, lin: seq<nat>, id: nat)
    requires forall i :: 0 <= i < |lin| ==> lin[i] < |s.calls|
    requires Explains(rows0, s, lin)
    requires id < |s'.calls| && |s.calls| <= |s'.calls|
    requires forall i :: 0 <= i < |lin| ==>
               && s'.calls[lin[i]].args == s.calls[lin[i]].args
               && (IsGranted(s'.calls[lin[i]].pc) <==> IsGranted(s.calls[lin[i]].pc))
    requires (s'.rows, IsGranted(s'.calls[id].pc)) == Atomic(s.rows, s'.calls[id].args)
    ensures forall i :: 0 <= i < |lin + [id]| ==> (lin + [id])[i] < |s'.calls|
    ensures Explains(rows0, s', lin + [id])
  {
    var ops := ArgsOf(s.calls, lin);
    assert ArgsOf(s'.calls, lin + [id]) == ops + [s'.calls[id].args];
    ReplayExtends(rows0, ops, s'.calls[id].args);
  }

  /**
   Linearizability. In every interleaving of any number of calls, with any faults, the rows are those of
   running the atomic operations of the decided calls one after the other, each once, in the order in
   which the verdicts fell; and every decided call has the answer the atomic operation gives there.
   */
  lemma {:induction false} Linearizable(rows0: Rows, es: seq<Event>)
    requires NonNegative(rows0)
    ensures IsLinearization(rows0, After(rows0, es), Linearization(rows0, es))
  {
    if es == [] {
      assert ArgsOf([], []) == [];
    } else {
      var n := |es| - 1;
      Linearizable(rows0, es[..n]);
      RowsOnlyGrow(rows0, es[..n]);
      var s, lin := After(rows0, es[..n]), Linearization(rows0, es[..n]);
      StepRefinesAtomic(s, es[n]);
      var c := Commits(s, es[n]);
      if c == [] {
        LinearizationStutter(rows0, s, es[n], lin);
        assert lin + c == lin;
      } else {
        assert c == [c[0]];
        CommitListsDecided(s, es[n], lin, c[0]);
        assert forall i :: 0 <= i < |lin| ==> lin[i] in lin;
        ExplainsOneMore(rows0, s, Next(s, es[n]), lin, c[0]);
      }
    }
  }

  lemma {:induction false} LinearizationPrefix(rows0: Rows, es: seq<Event>, m: nat)
    requires m <= |es|
    ensures Linearization(rows0, es[..m]) <= Linearization(rows0, es)
  {
    if m == |es| {
      assert es[..m] == es;
    } else {
      LinearizationPrefix(rows0, es[..|es| - 1], m);
      assert es[..|es| - 1][..m] == es[..m];
    }
  }

  lemma IndexOf(ids: seq<nat>, id: nat) returns (i: nat)
    requires id in ids
    ensures i < |ids| && ids[i] == id
  {
    i :| i < |ids| && ids[i] == id;
  }

  lemma EarlierInPrefix(early: seq<nat>, lin: seq<nat>, started: nat, i: nat, j: nat)
    requires early <= lin && i < |lin| && j < |lin| && lin[i] in early
    requires forall x, y :: 0 <= x < y < |lin| ==> lin[x] != lin[y]
    requires forall x :: 0 <= x < |early| ==> early[x] < started
    requires started <= lin[j]
    ensures i < j
  {
    var i' := IndexOf(early, lin[i]);
    assert lin[i'] == lin[i];
    assert forall x :: 0 <= x < |early| ==> lin[x] == early[x];
  }

  lemma ListedWhenDecided(s: System, lin: seq<nat>, id: nat)
    requires ListsDecided(s, lin)
    ensures id in lin <==> id < |s.calls| && Decided(s.calls[id].pc)
  {
  }

  /** A call that returned before another started comes before it in the linearization. */
  lemma RealTimeOrder(rows0: Rows, es: seq<Event>, m: nat, i: nat, j: nat)
    requires NonNegative(rows0) && m <= |es|
    requires i < |Linearization(rows0, es)| && j < |Linearization(rows0, es)|
    requires var s := After(rows0, es[..m]); var lin := Linearization(rows0, es);
             lin[i] < |s.calls| && s.calls[lin[i]].pc.Returned? && |s.calls| <= lin[j]
    ensures i < j
  {
    var s := After(rows0, es[..m]);
    var lin := Linearization(rows0, es);
    var id := lin[i];
    Linearizable(rows0, es[..m]);
    Linearizable(rows0, es);
    LinearizationPrefix(rows0, es, m);
    CallsKeepTheirVerdict(rows0, es, m, id);
    ListedWhenDecided(After(rows0, es), lin, id);
    ListedWhenDecided(s, Linearization(rows0, es[..m]), id);
    EarlierInPrefix(Linearization(rows0, es[..m]), lin, |s.calls|, i, j);
  }

  /** A returned call keeps its answer; if it ends up decided, it was so when it returned. */
  lemma {:induction false} CallsKeepTheirVerdict(rows0: Rows, es: seq<Event>, m: nat, id: nat)
    requires m <= |es| && id < |After(rows0, es[..m]).calls|
    ensures id < |After(rows0, es).calls|
    ensures var c := After(rows0, es[..m]).calls[id]; c.pc.Returned? ==> After(rows0, es).calls[id] == c
  {
    if m == |es| {
      assert es[..m] == es;
    } else {
      assert es[..|es| - 1][..m] == es[..m];
      CallsKeepTheirVerdict(rows0, es[..|es| - 1], m, id);
    }
  }

  // ---- no spurious denial ----

  /** Event `m` is the last UPDATE of call `id`, and the row it looks at has no room for the bytes. */
  ghost predicate LastUpdateOverLimit(rows0: Rows, es: seq<Event>, m: nat, id: nat) {
    && m < |es| && es[m].Run? && es[m].id == id && !es[m].fault
    && var s := After(rows0, es[..m]);
       && id < |s.calls| && s.calls[id].pc == Trying(ATTEMPTS - 1)
       && var a := s.calls[id].args;
          a.RowKey() in s.rows && s.rows[a.RowKey()] + a.bytes > a.limit
  }

  /** A call runs out of room only by a last UPDATE that found its row too full. */
  lemma RunsOutOnlyAtLastUpdate(s: System, e: Event, id: nat)
    requires Inv(s) && id < |Next(s, e).calls|
    requires OutOfRoom(Next(s, e).calls[id].pc) && Next(s, e).calls[id].args.bytes <= Next(s, e).calls[id].args.limit
    ensures id < |s.calls| && s.calls[id].args == Next(s, e).calls[id].args
    ensures || OutOfRoom(s.calls[id].pc)
            || (&& e.Run? && e.id == id && !e.fault && s.calls[id].pc == Trying(ATTEMPTS - 1)
                && var a := s.calls[id].args;
                   a.RowKey() in s.rows && s.rows[a.RowKey()] + a.bytes > a.limit)
  {
    if id < |s.calls| {
      assert CallOk(s.rows, s.calls[id].args, s.calls[id].pc);
    }
  }

  lemma {:induction false} LastUpdateHappened(rows0: Rows, es: seq<Event>, id: nat)
    requires NonNegative(rows0) && id < |After(rows0, es).calls| && OutOfRoom(After(rows0, es).calls[id].pc)
    requires After(rows0, es).calls[id].args.bytes <= After(rows0, es).calls[id].args.limit
    ensures exists m: nat :: LastUpdateOverLimit(rows0, es, m, id)
  {
    var n := |es| - 1;
    var s := After(rows0, es[..n]);
    RowsOnlyGrow(rows0, es[..n]);
    RunsOutOnlyAtLastUpdate(s, es[n], id);
    if OutOfRoom(s.calls[id].pc) {
      LastUpdateHappened(rows0, es[..n], id);
      var m: nat :| LastUpdateOverLimit(rows0, es[..n], m, id);
      assert es[..n][..m] == es[..m];
      assert LastUpdateOverLimit(rows0, es, m, id);
    } else {
      assert LastUpdateOverLimit(rows0, es, n, id);
    }
  }

  /** What the caller sees of a denial: allowed is false and there is no error. */
  predicate Denied(pc: Pc) { pc.Returned? && pc.verdict != Granted && !pc.err }

  /** Event `m` is an INSERT of call `id` that fails for another reason than the unique index. */
  ghost predicate InsertFailed(rows0: Rows, es: seq<Event>, m: nat, id: nat) {
    && m < |es| && es[m].Run? && es[m].id == id && es[m].fault
    && var s := After(rows0, es[..m]); id < |s.calls| && s.calls[id].pc.Inserting?
  }

  predicate IsAborted(pc: Pc) { pc == ReadBack(Aborted) || (Denied(pc) && pc.verdict == Aborted) }

  lemma {:induction false} AbortedByInsert(rows0: Rows, es: seq<Event>, id: nat)
    requires id < |After(rows0, es).calls| && IsAborted(After(rows0, es).calls[id].pc)
    ensures exists m: nat :: InsertFailed(rows0, es, m, id)
  {
    var n := |es| - 1;
    var s := After(rows0, es[..n]);
    if id < |s.calls| && IsAborted(s.calls[id].pc) {
      AbortedByInsert(rows0, es[..n], id);
      var m: nat :| InsertFailed(rows0, es[..n], m, id);
      assert es[..n][..m] == es[..m];
      assert InsertFailed(rows0, es, m, id);
    } else {
      assert InsertFailed(rows0, es, n, id);
    }
  }

  /**
   No spurious denial. A call is denied without an error only if there is no room for its bytes on its
   captured day, now or at any later time, or if one of its INSERTs failed for another reason than the
   unique index. In the first case it saw, at its last UPDATE, a row without room, if it fits the limit on
   its own.
   */
  lemma NoSpuriousDenial(rows0: Rows, es: seq<Event>, id: nat)
    requires NonNegative(rows0)
    requires id < |After(rows0, es).calls| && Denied(After(rows0, es).calls[id].pc)
    ensures var a := After(rows0, es).calls[id].args;
            || (&& 0 < a.bytes && 0 < a.limit
                && Used(After(rows0, es).rows, a.RowKey()) + a.bytes > a.limit
                && (a.bytes <= a.limit ==> exists m: nat :: LastUpdateOverLimit(rows0, es, m, id)))
            || exists m: nat :: InsertFailed(rows0, es, m, id)
  {
    RowsOnlyGrow(rows0, es);
    var c := After(rows0, es).calls[id];
    assert CallOk(After(rows0, es).rows, c.args, c.pc);
    if IsRefused(c.pc) {
      if c.args.bytes <= c.args.limit {
        LastUpdateHappened(rows0, es, id);
      }
    } else {
      AbortedByInsert(rows0, es, id);
    }
  }

  // ---- which calls can be denied in spite of room ----

  /** The row exists, and a call that is past its UPDATE without a charge or an error has no room in it. */
  ghost predicate RowKnown(rows: Rows, a: Args, pc: Pc) {
    && a.RowKey() in rows
    && (pc.Inserting? || (pc.ReadBack? && pc.verdict != Granted) || Denied(pc) ==>
          Used(rows, a.RowKey()) + a.bytes > a.limit)
  }

  lemma NextKeepsRowKnown(s: System, e: Event, id: nat)
    requires Inv(s) && id < |s.calls| && RowKnown(s.rows, s.calls[id].args, s.calls[id].pc)
    ensures var c := Next(s, e).calls[id]; c.args == s.calls[id].args && RowKnown(Next(s, e).rows, c.args, c.pc)
  {
    NextKeepsInv(s, e);
  }

  lemma AfterOneMore(rows0: Rows, es: seq<Event>, e: Event)
    ensures After(rows0, es + [e]) == Next(After(rows0, es), e)
  {
    assert (es + [e])[..|es|] == es;
  }

  ghost predicate CallKnown(s: System, id: nat, a: Args) {
    id < |s.calls| && s.calls[id].args == a && RowKnown(s.rows, a, s.calls[id].pc)
  }

  lemma StartKnowsRow(s: System, a: Args)
    requires Inv(s) && a.RowKey() in s.rows
    ensures CallKnown(Next(s, Start(a)), |s.calls|, a)
  {
  }

  lemma NextKeepsKnown(s: System, e: Event, id: nat, a: Args)
    requires Inv(s) && CallKnown(s, id, a)
    ensures CallKnown(Next(s, e), id, a)
  {
    NextKeepsRowKnown(s, e, id);
  }

  lemma {:induction false} RowStaysKnown(rows0: Rows, es: seq<Event>, id: nat, a: Args, more: seq<Event>)
    requires NonNegative(rows0) && CallKnown(After(rows0, es), id, a)
    ensures CallKnown(After(rows0, es + more), id, a)
  {
    if more == [] {
      assert es + more == es;
    } else {
      var n := |more| - 1;
      RowStaysKnown(rows0, es, id, a, more[..n]);
      assert es + more == es + more[..n] + [more[n]];
      RowsOnlyGrow(rows0, es + more[..n]);
      AfterOneMore(rows0, es + more[..n], more[n]);
      NextKeepsKnown(After(rows0, es + more[..n]), more[n], id, a);
    }
  }

  ghost predicate DeniedWithRoom(s: System, id: nat, a: Args) {
    id < |s.calls| && s.calls[id].args == a && Denied(s.calls[id].pc) && Used(s.rows, a.RowKey()) + a.bytes <= a.limit
  }

  /**
   On a day without a row, an INSERT that fails for another reason than the unique index (a locked database,
   say) turns any call away without an error, though nothing has been used.
   */
  lemma OtherInsertErrorDeniesSpuriously(rows0: Rows, es: seq<Event>, a: Args) returns (more: seq<Event>)
    requires a.RowKey() !in After(rows0, es).rows && 0 < a.bytes <= a.limit
    ensures DeniedWithRoom(After(rows0, es + [Start(a)] + more), |After(rows0, es).calls|, a)
    ensures After(rows0, es + [Start(a)] + more).rows == After(rows0, es).rows
  {
    var id := |After(rows0, es).calls|;
    var update, insert, readBack := Run(id, false, a.day), Run(id, true, a.day), Run(id, false, a.day);
    more := [update, insert, readBack];
    AfterOneMore(rows0, es, Start(a));
    AfterOneMore(rows0, es + [Start(a)], update);
    AfterOneMore(rows0, es + [Start(a)] + [update], insert);
    AfterOneMore(rows0, es + [Start(a)] + [update] + [insert], readBack);
    assert es + [Start(a)] + [update] + [insert] + [readBack] == es + [Start(a)] + more;
  }

  ghost predicate CallDecided(s: System, id: nat, a: Args) {
    id < |s.calls| && s.calls[id].args == a && Decided(s.calls[id].pc)
  }

  lemma {:induction false} CallStaysDecided(rows0: Rows, es: seq<Event>, id: nat, a: Args, more: seq<Event>)
    requires CallDecided(After(rows0, es), id, a)
    ensures CallDecided(After(rows0, es + more), id, a)
  {
    if more == [] {
      assert es + more == es;
    } else {
      var n := |more| - 1;
      CallStaysDecided(rows0, es, id, a, more[..n]);
      assert es + more == es + more[..n] + [more[n]];
      AfterOneMore(rows0, es + more[..n], more[n]);
    }
  }

  lemma DecidedIsNotDeniedWithRoom(s: System, id: nat, a: Args)
    requires Inv(s) && CallDecided(s, id, a)
    ensures !DeniedWithRoom(s, id, a)
  {
    assert CallOk(s.rows, a, s.calls[id].pc);
  }

  /**
   The exact condition. Some continuation, with whatever faults and other callers, denies a call without an
   error in spite of room, if and only if the row of its day does not exist yet when it starts and the call
   has something to charge that fits the limit. With a row, every such denial is justified.
   */
  lemma DeniedWithRoomIffRowMissing(rows0: Rows, es: seq<Event>, a: Args)
    requires NonNegative(rows0)
    ensures var s := After(rows0, es);
            (exists more :: DeniedWithRoom(After(rows0, es + [Start(a)] + more), |s.calls|, a))
              <==> a.RowKey() !in s.rows && 0 < a.bytes <= a.limit
  {
    var s := After(rows0, es);
    RowsOnlyGrow(rows0, es);
    AfterOneMore(rows0, es, Start(a));
    if more :| DeniedWithRoom(After(rows0, es + [Start(a)] + more), |s.calls|, a) {
      if a.RowKey() in s.rows {
        StartKnowsRow(s, a);
        RowStaysKnown(rows0, es + [Start(a)], |s.calls|, a, more);
      } else if !(0 < a.bytes <= a.limit) {
        CallStaysDecided(rows0, es + [Start(a)], |s.calls|, a, more);
        RowsOnlyGrow(rows0, es + [Start(a)] + more);
        DecidedIsNotDeniedWithRoom(After(rows0, es + [Start(a)] + more), |s.calls|, a);
      }
    }
    if a.RowKey() !in s.rows && 0 < a.bytes <= a.limit {
      var more := OtherInsertErrorDeniesSpuriously(rows0, es, a);
    }
  }

  // ---- accounting ----

  /** What a call has charged to the row `k`. */
  function ChargeTo(k: Key): Call -> int {
    (c: Call) => if c.args.RowKey() == k then Charge(c.args, IsGranted(c.pc)) else 0
  }

  /** What a call has charged to the user. */
  function ChargeBy(user: nat): Call -> int {
    (c: Call) => if c.args.user == user then Charge(c.args, IsGranted(c.pc)) else 0
  }

  /** A step adds to one row exactly what it adds to the charges of its call. */
  lemma StepCharges(s: System, e: Event)
    requires Inv(s)
    ensures var s' := Next(s, e);
            || (s'.rows == s.rows &&
                (e.Run? && e.id < |s.calls| ==>
                   Charge(s'.calls[e.id].args, IsGranted(s'.calls[e.id].pc)) == Charge(s.calls[e.id].args, IsGranted(s.calls[e.id].pc))))
            || (e.Run? && e.id < |s.calls| &&
                var a := s.calls[e.id].args;
                && !IsGranted(s.calls[e.id].pc) && IsGranted(s'.calls[e.id].pc)
                && Charge(a, true) == a.bytes && Used(s.rows, a.RowKey()) + a.bytes <= a.limit
                && s'.rows == s.rows[a.RowKey() := Used(s.rows, a.RowKey()) + a.bytes])
  {
    if e.Run? && e.id < |s.calls| {
      assert CallOk(s.rows, s.calls[e.id].args, s.calls[e.id].pc);
    }
  }

  /** Every row is what it started with plus the bytes of exactly the calls granted on it. */
  lemma {:induction false} RowIsSumOfCharges(rows0: Rows, es: seq<Event>, k: Key)
    requires NonNegative(rows0)
    ensures Used(After(rows0, es).rows, k) == Used(rows0, k) + SumBy(After(rows0, es).calls, ChargeTo(k))
  {
    if es != [] {
      var n := |es| - 1;
      var s, e := After(rows0, es[..n]), es[n];
      RowIsSumOfCharges(rows0, es[..n], k);
      RowsOnlyGrow(rows0, es[..n]);
      StepCharges(s, e);
      match e
      case Start(a) => SumByAppend(s.calls, Call(a, Begin(a)), ChargeTo(k));
      case Run(id, _, _) =>
        if id < |s.calls| {
          SumByUpdate(s.calls, id, Next(s, e).calls[id], ChargeTo(k));
        }
    }
  }

  lemma StepTotal(s: System, e: Event, user: nat)
    requires Inv(s)
    ensures Total(Next(s, e).rows, user) - Total(s.rows, user)
              == SumBy(Next(s, e).calls, ChargeBy(user)) - SumBy(s.calls, ChargeBy(user))
  {
    match e
    case Start(a) => SumByAppend(s.calls, Call(a, Begin(a)), ChargeBy(user));
    case Run(id, _, _) =>
      if id < |s.calls| {
        StepCharges(s, e);
        SumByUpdate(s.calls, id, Next(s, e).calls[id], ChargeBy(user));
        var a := s.calls[id].args;
        TotalAfterCharge(s.rows, a.RowKey(), a.bytes, user);
      }
  }

  /** The same for the all-days total: it is the sum of the user's rows, and of the user's charges. */
  lemma {:induction false} TotalIsSumOfCharges(rows0: Rows, es: seq<Event>, user: nat)
    requires NonNegative(rows0)
    ensures Total(After(rows0, es).rows, user) == Total(rows0, user) + SumBy(After(rows0, es).calls, ChargeBy(user))
  {
    if es != [] {
      var n := |es| - 1;
      TotalIsSumOfCharges(rows0, es[..n], user);
      RowsOnlyGrow(rows0, es[..n]);
      StepTotal(After(rows0, es[..n]), es[n], user);
    }
  }

  /** With one daily limit for all calls, no row ever leaves 0..limit. */
  lemma {:induction false} RowsWithinLimit(rows0: Rows, es: seq<Event>, limit: nat)
    requires NonNegative(rows0) && forall k :: k in rows0 ==> rows0[k] <= limit
    requires forall i :: 0 <= i < |es| && es[i].Start? ==> es[i].args.limit <= limit
    ensures forall k :: k in After(rows0, es).rows ==> 0 <= After(rows0, es).rows[k] <= limit
    ensures forall c :: c in After(rows0, es).calls ==> c.args.limit <= limit
  {
    RowsOnlyGrow(rows0, es);
    if es != [] {
      var n := |es| - 1;
      RowsWithinLimit(rows0, es[..n], limit);
      RowsOnlyGrow(rows0, es[..n]);
      StepCharges(After(rows0, es[..n]), es[n]);
      var s := After(rows0, es[..n]);
      if es[n].Run? && es[n].id < |s.calls| {
        assert s.calls[es[n].id] in s.calls;
      }
    }
  }

  /** The usage a granted call reports for its own day includes its own bytes. */
  lemma ReportIncludesOwnBytes(rows0: Rows, es: seq<Event>, id: nat)
    requires NonNegative(rows0)
    requires var s := After(rows0, es); id < |s.calls| && s.calls[id].pc == ReadBack(Granted)
    ensures var s := After(rows0, es); var a := s.calls[id].args;
            var pc := Next(s, Run(id, false, a.day)).calls[id].pc;
            pc.Returned? && !pc.err && Charge(a, true) <= pc.used
  {
    RowsOnlyGrow(rows0, es);
    var s := After(rows0, es);
    assert CallOk(s.rows, s.calls[id].args, s.calls[id].pc);
  }

  // ---- the run of one call, seen from its own side ----

  /** The statement that event `e` executes in `s`. */
  function StmtOf(s: System, e: Event): Stmt {
    if e.Run? && e.id < |s.calls| && !e.fault then
      var c := s.calls[e.id];
      match c.pc
      case Trying(_) => Update(c.args.RowKey(), c.args.bytes, c.args.limit)
      case Inserting(_) => Insert(c.args.RowKey(), c.args.bytes)
      case _ => Select
    else Select
  }

  lemma EventExecutesStmt(s: System, e: Event)
    ensures Next(s, e).rows == Exec(s.rows, StmtOf(s, e))
  {
  }

  lemma DriveOneTick(rows: Rows, a: Args, pc: Pc, ticks: seq<Tick>, t: Tick)
    ensures var (r, p) := Drive(rows, a, pc, ticks);
            Drive(rows, a, pc, ticks + [t]) == Step(ExecAll(r, t.env), a, p, t.fault, t.today)
  {
    assert (ticks + [t])[..|ticks|] == ticks;
  }

  lemma OwnEventIsATick(s: System, e: Event, rows: Rows, a: Args, pc: Pc, ticks: seq<Tick>, pending: seq<Stmt>)
    requires e.Run? && e.id < |s.calls|
    requires var (r, p) := Drive(rows, a, pc, ticks); s.rows == ExecAll(r, pending) && s.calls[e.id] == Call(a, p)
    ensures var (r, p) := Drive(rows, a, pc, ticks + [Tick(pending, e.fault, e.today)]);
            Next(s, e).rows == r && Next(s, e).calls[e.id] == Call(a, p)
  {
    DriveOneTick(rows, a, pc, ticks, Tick(pending, e.fault, e.today));
  }

  lemma OtherEventIsPending(s: System, e: Event, rows: Rows, pending: seq<Stmt>, id: nat)
    requires id < |s.calls| && !(e.Run? && e.id == id)
    requires s.rows == ExecAll(rows, pending)
    ensures id < |Next(s, e).calls| && Next(s, e).calls[id] == s.calls[id]
    ensures Next(s, e).rows == ExecAll(rows, pending + [StmtOf(s, e)])
  {
    EventExecutesStmt(s, e);
    assert (pending + [StmtOf(s, e)])[..|pending|] == pending;
  }

  /** The run from event `from` on as call `id` sees it: its own statements, the others' in between and after. */
  function Script(rows0: Rows, es: seq<Event>, from: nat, id: nat): (seq<Tick>, seq<Stmt>) {
    if |es| <= from then ([], [])
    else
      var n := |es| - 1;
      var (ticks, pending) := Script(rows0, es[..n], from, id);
      var e := es[n];
      if e.Run? && e.id == id then (ticks + [Tick(pending, e.fault, e.today)], [])
      else (ticks, pending + [StmtOf(After(rows0, es[..n]), e)])
  }

  /** The table and call `id` at the end of the run are what `Drive` makes of those at event `from`. */
  ghost predicate IsDriven(rows0: Rows, es: seq<Event>, from: nat, id: nat)
    requires from <= |es| && id < |After(rows0, es[..from]).calls|
  {
    var start := After(rows0, es[..from]);
    var c := start.calls[id];
    var (ticks, pending) := Script(rows0, es, from, id);
    var (rows, pc) := Drive(start.rows, c.args, c.pc, ticks);
    && id < |After(rows0, es).calls| && After(rows0, es).calls[id] == Call(c.args, pc)
    && After(rows0, es).rows == ExecAll(rows, pending)
  }

  lemma OwnEventIsDriven(rows0: Rows, es: seq<Event>, from: nat, id: nat)
    requires from < |es| && id < |After(rows0, es[..from]).calls|
    requires es[..|es| - 1][..from] == es[..from] && IsDriven(rows0, es[..|es| - 1], from, id)
    requires es[|es| - 1].Run? && es[|es| - 1].id == id
    ensures IsDriven(rows0, es, from, id)
  {
    var n := |es| - 1;
    var start := After(rows0, es[..from]);
    var c := start.calls[id];
    var (ticks, pending) := Script(rows0, es[..n], from, id);
    OwnEventIsATick(After(rows0, es[..n]), es[n], start.rows, c.args, c.pc, ticks, pending);
    assert Script(rows0, es, from, id) == (ticks + [Tick(pending, es[n].fault, es[n].today)], []);
  }

  lemma OtherEventIsDriven(rows0: Rows, es: seq<Event>, from: nat, id: nat)
    requires from < |es| && id < |After(rows0, es[..from]).calls|
    requires es[..|es| - 1][..from] == es[..from] && IsDriven(rows0, es[..|es| - 1], from, id)
    requires !(es[|es| - 1].Run? && es[|es| - 1].id == id)
    ensures IsDriven(rows0, es, from, id)
  {
    var n := |es| - 1;
    var start := After(rows0, es[..from]);
    var c := start.calls[id];
    var (ticks, pending) := Script(rows0, es[..n], from, id);
    var rows := Drive(start.rows, c.args, c.pc, ticks).0;
    OtherEventIsPending(After(rows0, es[..n]), es[n], rows, pending, id);
    assert Script(rows0, es, from, id) == (ticks, pending + [StmtOf(After(rows0, es[..n]), es[n])]);
  }

  /**
   Each call of an interleaving behaves as `Drive` says, against the statements the others execute in
   between. So what the method is proved to do alone is what every call does among the others.
   */
  lemma {:induction false} EveryCallIsDriven(rows0: Rows, es: seq<Event>, from: nat, id: nat)
    requires from <= |es| && id < |After(rows0, es[..from]).calls|
    ensures IsDriven(rows0, es, from, id)
  {
    if |es| == from {
      assert es[..from] == es;
    } else {
      var n := |es| - 1;
      assert es[..n][..from] == es[..from];
      EveryCallIsDriven(rows0, es[..n], from, id);
      if es[n].Run? && es[n].id == id {
        OwnEventIsDriven(rows0, es, from, id);
      } else {
        OtherEventIsDriven(rows0, es, from, id);
      }
    }
  }
}
