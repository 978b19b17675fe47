/**
 The daily bandwidth quota of internal/storage/db.go: one table of counters with a unique index on
 (user, day), the three SQL statements that touch it, and the optimistic UPDATE / INSERT / retry
 protocol that `ConsumeUserBandwidthWithinLimit` runs on it.
 */
module Quota {
  import opened Sums

  /** The columns of the unique index `idx_user_date`. */
  datatype Key = Key(user: nat, day: int)

  /** The table `user_bandwidths`: at most one row a key, holding `bytes_used`. */
  type Rows = map<Key, int>

  const ATTEMPTS: nat := 3

  /** What `GetUserBandwidthToday` reads: no row means no usage. */
  function Used(rows: Rows, k: Key): int {
    if k in rows then rows[k] else 0
  }

  ghost predicate NonNegative(rows: Rows) {
    forall k :: k in rows ==> 0 <= rows[k]
  }

  /** No row disappears and no counter goes down. */
  ghost predicate Grows(rows: Rows, rows': Rows) {
    forall k :: k in rows ==> k in rows' && rows[k] <= rows'[k]
  }

  // ---- statements ----

  datatype Stmt =
    | Update(key: Key, bytes: int, limit: int)
    | Insert(key: Key, bytes: int)
    | Select

  predicate UpdateMatches(rows: Rows, k: Key, bytes: int, limit: int) {
    k in rows && rows[k] + bytes <= limit
  }

  /** The effect of one statement. An INSERT that violates the unique index changes nothing. */
  function Exec(rows: Rows, st: Stmt): Rows {
    match st
    case Update(k, bytes, limit) => if UpdateMatches(rows, k, bytes, limit) then rows[k := rows[k] + bytes] else rows
    case Insert(k, bytes) => if k in rows then rows else rows[k := bytes]
    case Select => rows
  }

  function ExecAll(rows: Rows, sts: seq<Stmt>): Rows {
    if sts == [] then rows else Exec(ExecAll(rows, sts[..|sts| - 1]), sts[|sts| - 1])
  }

  // ---- one call, statement by statement ----

  /** The arguments of a call, and the local day it captured before its loop. */
  datatype Args = Args(user: nat, day: int, bytes: int, limit: int) {
    function RowKey(): Key { Key(user, day) }
  }

  /** Aborted: an UPDATE failed, or an INSERT failed for another reason than the unique index. */
  datatype Verdict = Granted | Refused | Aborted

  datatype Pc =
    | Trying(attempt: nat)                              // about to UPDATE
    | Inserting(attempt: nat)                           // UPDATE matched no row, about to INSERT
    | ReadBack(verdict: Verdict)                        // about to read the counter it reports
    | Returned(verdict: Verdict, used: int, err: bool)

  /** The checks before the loop. */
  function Begin(a: Args): Pc {
    if a.limit <= 0 then Returned(Granted, 0, false)
    else if a.bytes <= 0 then ReadBack(Granted)
    else if a.bytes > a.limit then ReadBack(Refused)
    else Trying(0)
  }

  /**
   The next statement of a call. `fault`: the statement fails with an error that is not the unique
   index. `today`: the day the read-back computes, which reads the clock again.
   */
  function Step(rows: Rows, a: Args, pc: Pc, fault: bool, today: int): (Rows, Pc) {
    match pc
    case Trying(n) =>
      if fault then (rows, Returned(Aborted, 0, true))
      else if UpdateMatches(rows, a.RowKey(), a.bytes, a.limit) then
        (Exec(rows, Update(a.RowKey(), a.bytes, a.limit)), ReadBack(Granted))
      else (rows, Inserting(n))
    case Inserting(n) =>
      if fault then (rows, ReadBack(Aborted))
      else if a.RowKey() in rows then (rows, if n + 1 < ATTEMPTS then Trying(n + 1) else ReadBack(Refused))
      else (Exec(rows, Insert(a.RowKey(), a.bytes)), ReadBack(Granted))
    case ReadBack(v) =>
      (rows, if fault then Returned(v, 0, true) else Returned(v, Used(rows, Key(a.user, today)), false))
    case Returned(_, _, _) => (rows, pc)
  }

  /** What other callers execute before the call's next statement, and how that statement fares. */
  datatype Tick = Tick(env: seq<Stmt>, fault: bool, today: int)

  /** A call run against arbitrary statements of other callers in between. */
  function Drive(rows: Rows, a: Args, pc: Pc, script: seq<Tick>): (Rows, Pc) {
    if script == [] then (rows, pc)
    else
      var t := script[|script| - 1];
      var (r, p) := Drive(rows, a, pc, script[..|script| - 1]);
      Step(ExecAll(r, t.env), a, p, t.fault, t.today)
  }

  lemma DriveOneMore(rows: Rows, a: Args, pc: Pc, script: seq<Tick>, n: nat)
    requires n < |script|
    ensures var (r, p) := Drive(rows, a, pc, script[..n]);
            Drive(rows, a, pc, script[..n + 1]) ==
              Step(ExecAll(r, script[n].env), a, p, script[n].fault, script[n].today)
  {
    assert script[..n + 1][..n] == script[..n];
  }

  /** The number of statements a call may still execute. */
  function Rank(pc: Pc): nat {
    match pc
    case Trying(n) => if n < ATTEMPTS then 2 * (ATTEMPTS - n) + 1 else 1
    case Inserting(n) => if n < ATTEMPTS then 2 * (ATTEMPTS - n) else 1
    case ReadBack(_) => 1
    case Returned(_, _, _) => 0
  }

  /** Wait-freedom: every statement of its own brings a call closer to its return, whatever the others do. */
  lemma {:induction false} DriveTerminates(rows: Rows, a: Args, script: seq<Tick>)
    ensures var pc := Drive(rows, a, Begin(a), script).1;
            && (pc.Trying? || pc.Inserting? ==> pc.attempt < ATTEMPTS)
            && Rank(pc) <= if |script| <= 7 then 7 - |script| else 0
    ensures |script| >= 7 ==> Drive(rows, a, Begin(a), script).1.Returned?
  {
    if script != [] {
      DriveTerminates(rows, a, script[..|script| - 1]);
    }
  }

  /**
   The table with the two ways to change it. Each method is one SQL statement, atomic in SQLite.
   */
  class UserBandwidthTable {
    var rows: Rows

    constructor (initial: Rows)
      ensures rows == initial
    {
      rows := initial;
    }

    method UpdateWithinLimit(k: Key, bytes: int, limit: int) returns (rowsAffected: nat)
      modifies this
      ensures rows == Exec(old(rows), Update(k, bytes, limit))
      ensures rowsAffected == if UpdateMatches(old(rows), k, bytes, limit) then 1 else 0
    {
      if k in rows && rows[k] + bytes <= limit {
        rows := rows[k := rows[k] + bytes];
        rowsAffected := 1;
      } else {
        rowsAffected := 0;
      }
    }

    method InsertFirst(k: Key, bytes: int) returns (uniqueFailed: bool)
      modifies this
      ensures rows == Exec(old(rows), Insert(k, bytes))
      ensures uniqueFailed <==> k in old(rows)
    {
      uniqueFailed := k in rows;
      if !uniqueFailed {
        rows := rows[k := bytes];
      }
    }

    /** Statements that other callers execute between two of this caller's. */
    method Others(env: seq<Stmt>)
      modifies this
      ensures rows == ExecAll(old(rows), env)
    {
      for i := 0 to |env|
        invariant rows == ExecAll(old(rows), env[..i])
      {
        assert env[..i + 1][..i] == env[..i];
        match env[i]
        case Update(k, bytes, limit) => var _ := UpdateWithinLimit(k, bytes, limit);
        case Insert(k, bytes) => var _ := InsertFirst(k, bytes);
        case Select =>
      }
      assert env[..|env|] == env;
    }

    method GetUserBandwidthToday(user: nat, today: int) returns (used: int)
      ensures used == Used(rows, Key(user, today))
    {
      used := 0;
      if Key(user, today) in rows {
        used := rows[Key(user, today)];
      }
    }

    /** The read-back that ends every call that got past the first check. */
    method Report(user: nat, t: Tick) returns (used: int, err: bool)
      modifies this
      ensures rows == ExecAll(old(rows), t.env)
      ensures err == t.fault && used == if t.fault then 0 else Used(rows, Key(user, t.today))
    {
      Others(t.env);
      if t.fault {
        return 0, true;
      }
      used := GetUserBandwidthToday(user, t.today);
      err := false;
    }

    /** The UPDATE of round `n`: an error, a charge, or on to the INSERT. */
    method UpdateOf(a: Args, n: nat, t: Tick) returns (pc: Pc)
      modifies this
      ensures (rows, pc) == Step(ExecAll(old(rows), t.env), a, Trying(n), t.fault, t.today)
    {
      Others(t.env);
      if t.fault {
        return Returned(Aborted, 0, true);
      }
      var affected := UpdateWithinLimit(a.RowKey(), a.bytes, a.limit);
      pc := if affected == 1 then ReadBack(Granted) else Inserting(n);
    }

    /** The INSERT of round `n`: a charge, another round after a lost race, or out. */
    method InsertOf(a: Args, n: nat, t: Tick) returns (pc: Pc)
      modifies this
      ensures (rows, pc) == Step(ExecAll(old(rows), t.env), a, Inserting(n), t.fault, t.today)
    {
      Others(t.env);
      if t.fault {
        return ReadBack(Aborted);
      }
      var uniqueFailed := InsertFirst(a.RowKey(), a.bytes);
      pc := if !uniqueFailed then ReadBack(Granted)
            else if n + 1 < ATTEMPTS then Trying(n + 1) else ReadBack(Refused);
    }

    /** One round: the UPDATE and, if it matches no row, the INSERT. */
    method Round(a: Args, n: nat, script: seq<Tick>, ticks: nat, ghost start: Rows) returns (pc: Pc, ticks': nat)
      requires n < ATTEMPTS && ticks + 2 <= |script| && Drive(start, a, Begin(a), script[..ticks]) == (rows, Trying(n))
      modifies this
      ensures ticks < ticks' <= ticks + 2 && Drive(start, a, Begin(a), script[..ticks']) == (rows, pc)
      ensures !pc.Inserting? && (pc.Trying? ==> pc.attempt == n + 1 < ATTEMPTS && ticks' == ticks + 2)
      ensures pc.Returned? ==> pc.err && pc.used == 0 && script[ticks' - 1].fault
    {
      DriveOneMore(start, a, Begin(a), script, ticks);
      pc := UpdateOf(a, n, script[ticks]);
      ticks' := ticks + 1;
      if pc.Inserting? {
        DriveOneMore(start, a, Begin(a), script, ticks');
        pc := InsertOf(a, n, script[ticks']);
        ticks' := ticks' + 1;
      }
    }

    /**
     The retry loop, with the other callers' statements of `script` before each statement of its own.
     It returns after at most seven statements, in the state and with the answer `Drive` gives, and reports
     the counter of the day on which it reads back, as it is then, unless that or an UPDATE fails.
     */
    method ConsumeUserBandwidthWithinLimit(a: Args, script: seq<Tick>)
      returns (allowed: bool, used: int, err: bool, ticks: nat)
      requires |script| >= 7
      modifies this
      ensures ticks <= 7
      ensures var (r, pc) := Drive(old(rows), a, Begin(a), script[..ticks]);
              rows == r && pc.Returned? && allowed == pc.verdict.Granted? && used == pc.used && err == pc.err
      ensures a.limit <= 0 ==> allowed && used == 0 && !err && ticks == 0
      ensures a.limit > 0 ==> ticks > 0 && err == script[ticks - 1].fault
      ensures a.limit > 0 ==> used == if err then 0 else Used(rows, Key(a.user, script[ticks - 1].today))
    {
      ticks := 0;
      if a.limit <= 0 {
        return true, 0, false, 0;
      }
      if a.bytes <= 0 || a.bytes > a.limit {
        DriveOneMore(rows, a, Begin(a), script, 0);
        used, err := Report(a.user, script[0]);
        return a.bytes <= 0, used, err, 1;
      }
      ghost var start := rows;
      var pc := Trying(0);
      while pc.Trying?
        invariant pc.Trying? ==> pc.attempt < ATTEMPTS && ticks == 2 * pc.attempt
        invariant ticks <= 6 && !pc.Inserting? && (pc.Returned? ==> ticks > 0 && pc.err && pc.used == 0 && script[ticks - 1].fault)
        invariant Drive(start, a, Begin(a), script[..ticks]) == (rows, pc)
        decreases Rank(pc)
      {
        pc, ticks := Round(a, pc.attempt, script, ticks, start);
      }
      if pc.Returned? {
        return pc.verdict.Granted?, pc.used, pc.err, ticks;
      }
      DriveOneMore(start, a, Begin(a), script, ticks);
      used, err := Report(a.user, script[ticks]);
      return pc.verdict.Granted?, used, err, ticks + 1;
    }
  }

  // ---- the atomic operation the protocol is meant to implement ----

  /** If the bytes still fit, add them; otherwise refuse. */
  function Atomic(rows: Rows, a: Args): (Rows, bool) {
    if a.limit <= 0 || a.bytes <= 0 then (rows, true)
    else if Used(rows, a.RowKey()) + a.bytes <= a.limit then
      (rows[a.RowKey() := Used(rows, a.RowKey()) + a.bytes], true)
    else (rows, false)
  }

  /** The bytes an answer adds to a counter. */
  function Charge(a: Args, granted: bool): int {
    if granted && a.limit > 0 && a.bytes > 0 then a.bytes else 0
  }

  /** Operations one after the other. */
  function Replay(rows: Rows, ops: seq<Args>): Rows {
    if ops == [] then rows else Atomic(Replay(rows, ops[..|ops| - 1]), ops[|ops| - 1]).0
  }

  // ---- the all-days total ----

  ghost function KeysOf(rows: Rows, user: nat): set<Key> {
    set k | k in rows && k.user == user
  }

  /** `GetUserTotalBandwidth`: the sum of the user's rows over all days. */
  ghost function Total(rows: Rows, user: nat): int {
    SumOver(rows, KeysOf(rows, user))
  }

  /** Adding bytes to one counter adds them to its user's total and to no other. */
  lemma TotalAfterCharge(rows: Rows, k: Key, bytes: int, user: nat)
    ensures Total(rows[k := Used(rows, k) + bytes], user) == Total(rows, user) + if k.user == user then bytes else 0
  {
    var rows' := rows[k := Used(rows, k) + bytes];
    var ks := KeysOf(rows, user);
    var ks' := KeysOf(rows', user);
    SumOverSame(rows, rows', ks - {k});
    if k.user == user {
      assert ks' - {k} == ks - {k};
      SumOverTake(rows', ks', k);
      if k in rows {
        SumOverTake(rows, ks, k);
      } else {
        assert ks - {k} == ks;
      }
    } else {
      assert ks' == ks && ks - {k} == ks;
    }
  }
}
