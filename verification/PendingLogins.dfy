/**
 The pending-login store of internal/telegram/pending_login.go: logins are created, approved or rejected
 once, consumed once, and expire after five minutes, lazily and by a background sweep.
 */
module PendingLogins {
  import opened Options

  /** Five minutes; times are in milliseconds. */
  const TTL: int := 5 * 60 * 1000

  datatype Status = Pending | Approved | Rejected

  /** The Telegram account an approval stores. */
  datatype Identity = Identity(telegramID: int, firstName: string, lastName: string, username: string, photoURL: string)

  /** What the browser's request fixes. */
  datatype Request = Request(ip: string, userAgent: string, isLinking: bool, user: nat)

  datatype Login = Login(request: Request, createdAt: int, status: Status, identity: Option<Identity>)

  type Book = map<string, Login>

  predicate Expired(login: Login, now: int) { now - login.createdAt > TTL }

  // ---- the operations on values ----

  datatype Op =
    | Create(hash: string, request: Request)
    | Get(hash: string)
    | Approve(hash: string, identity: Identity)
    | Reject(hash: string)
    | Consume(hash: string)
    | Delete(hash: string)
    | Cleanup

  datatype Answer =
    | Done
    | Flag(ok: bool)
    | Found(login: Option<Login>)

  /** The store and the answer after one operation at time `now`. */
  function Apply(b: Book, op: Op, now: int): (Book, Answer) {
    match op
    case Create(h, request) => (b[h := Login(request, now, Pending, None)], Done)
    case Get(h) => (b, Found(if h in b && !Expired(b[h], now) then Some(b[h]) else None))
    case Approve(h, identity) =>
      if h !in b then (b, Flag(false))
      else if Expired(b[h], now) then (b - {h}, Flag(false))
      else if b[h].status != Pending then (b, Flag(false))
      else (b[h := b[h].(status := Approved, identity := Some(identity))], Flag(true))
    case Reject(h) =>
      if h !in b || b[h].status != Pending then (b, Flag(false))
      else (b[h := b[h].(status := Rejected)], Flag(true))
    case Consume(h) =>
      (b - {h}, Found(if h in b && b[h].status == Approved then Some(b[h]) else None))
    case Delete(h) => (b - {h}, Done)
    case Cleanup => (Swept(b, now), Done)
  }

  /** The store without its expired entries. */
  function Swept(b: Book, now: int): Book {
    map h | h in b && !Expired(b[h], now) :: b[h]
  }

  // ---- the store as the code keeps it: records that are changed in place ----

  class PendingLogin {
    const request: Request
    const createdAt: int
    var status: Status
    var identity: Option<Identity>

    constructor (request: Request, now: int)
      ensures Value() == Login(request, now, Pending, None)
    {
      this.request := request;
      createdAt := now;
      status := Pending;
      identity := None;
    }

    function Value(): Login
      reads this
    {
      Login(request, createdAt, status, identity)
    }
  }

  class PendingLoginStore {
    var logins: map<string, PendingLogin>

    /** No record is stored under two hashes. */
    ghost predicate Valid()
      reads this
    {
      forall g, h :: g in logins && h in logins && g != h ==> logins[g] != logins[h]
    }

    ghost function Records(): set<PendingLogin>
      reads this
    {
      set h | h in logins :: logins[h]
    }

    ghost function Contents(): Book
      reads this, Records()
    {
      map h | h in logins :: logins[h].Value()
    }

    constructor ()
      ensures Valid() && Contents() == map[] && Records() == {}
    {
      logins := map[];
    }

    method Create(hash: string, request: Request, now: int)
      requires Valid()
      modifies this
      ensures Valid() && Contents() == Apply(old(Contents()), Op.Create(hash, request), now).0
      ensures fresh(Records() - old(Records()))
    {
      var login := new PendingLogin(request, now);
      logins := logins[hash := login];
      assert Contents().Keys == logins.Keys;
    }

    /** It hands out the stored record itself; later approvals show through it. */
    method Get(hash: string, now: int) returns (login: PendingLogin?)
      requires Valid()
      ensures Found(if login == null then None else Some(login.Value())) == Apply(Contents(), Op.Get(hash), now).1
      ensures login != null <==> hash in logins && now - logins[hash].createdAt <= 5 * 60 * 1000
      ensures login != null ==> login == logins[hash]
    {
      if hash !in logins {
        return null;
      }
      login := logins[hash];
      if now - login.createdAt > TTL {
        return null;
      }
    }

    method Approve(hash: string, identity: Identity, now: int) returns (ok: bool)
      requires Valid()
      modifies this, Records()
      ensures Valid() && (Contents(), Flag(ok)) == Apply(old(Contents()), Op.Approve(hash, identity), now)
      ensures Records() <= old(Records())
    {
      if hash !in logins {
        return false;
      }
      var login := logins[hash];
      if now - login.createdAt > TTL {
        logins := logins - {hash};
        assert Contents() == old(Contents()) - {hash};
        return false;
      }
      if login.status != Pending {
        return false;
      }
      login.status := Approved;
      login.identity := Some(identity);
      assert Contents() == old(Contents())[hash := login.Value()];
      ok := true;
    }

    method Reject(hash: string, now: int) returns (ok: bool)
      requires Valid()
      modifies this, Records()
      ensures Valid() && (Contents(), Flag(ok)) == Apply(old(Contents()), Op.Reject(hash), now)
      ensures Records() <= old(Records())
    {
      if hash !in logins {
        return false;
      }
      var login := logins[hash];
      if login.status != Pending {
        return false;
      }
      login.status := Rejected;
      assert Contents() == old(Contents())[hash := login.Value()];
      ok := true;
    }

    method Consume(hash: string, now: int) returns (login: PendingLogin?)
      requires Valid()
      modifies this
      ensures Valid() && Contents() == Apply(old(Contents()), Op.Consume(hash), now).0
      ensures Found(if login == null then None else Some(login.Value())) == Apply(old(Contents()), Op.Consume(hash), now).1
      ensures Records() <= old(Records()) && (login != null ==> login !in Records())
    {
      if hash !in logins {
        return null;
      }
      login := logins[hash];
      logins := logins - {hash};
      if login.status != Approved {
        return null;
      }
    }

    method Delete(hash: string)
      requires Valid()
      modifies this
      ensures Valid() && Contents() == old(Contents()) - {hash}
      ensures Records() <= old(Records())
    {
      logins := logins - {hash};
    }

    /** The background sweep: a loop over the map that deletes as it goes, in any order. */
    method Cleanup(now: int)
      requires Valid()
      modifies this
      ensures Valid() && Contents() == Apply(old(Contents()), Op.Cleanup, now).0
      ensures Records() <= old(Records())
    {
      var todo := logins.Keys;
      while todo != {}
        invariant Valid() && todo <= old(logins.Keys)
        invariant forall h :: h in logins ==> h in old(logins) && logins[h] == old(logins[h])
        invariant forall h :: h in old(logins) ==>
                    (h in logins <==> h in todo || now - old(logins[h]).createdAt <= TTL)
        decreases |todo|
      {
        var hash :| hash in todo;
        todo := todo - {hash};
        if now - logins[hash].createdAt > TTL {
          logins := logins - {hash};
        }
      }
      assert Contents().Keys == Swept(old(Contents()), now).Keys;
    }
  }
}

/** Runs of the store on a clock that does not go back. */
module PendingLoginRuns {
  import opened Options
  import opened PendingLogins

  datatype Event = Event(op: Op, now: int)

  ghost predicate ClockForward(es: seq<Event>) {
    forall i, j :: 0 <= i < j < |es| ==> es[i].now <= es[j].now
  }

  function After(es: seq<Event>): Book {
    if es == [] then map[] else Apply(After(es[..|es| - 1]), es[|es| - 1].op, es[|es| - 1].now).0
  }

  /** The answer to event `i`. */
  function AnswerAt(es: seq<Event>, i: nat): Answer
    requires i < |es|
  {
    Apply(After(es[..i]), es[i].op, es[i].now).1
  }

  // ---- sweeping is unobservable ----

  /** The same store without its sweeper. */
  function Unswept(es: seq<Event>): Book {
    if es == [] then map[]
    else
      var e := es[|es| - 1];
      if e.op.Cleanup? then Unswept(es[..|es| - 1]) else Apply(Unswept(es[..|es| - 1]), e.op, e.now).0
  }

  function UnsweptAnswerAt(es: seq<Event>, i: nat): Answer
    requires i < |es|
  {
    Apply(Unswept(es[..i]), es[i].op, es[i].now).1
  }

  /** Both stores hold the same unexpired logins, and what the swept one holds the other does too. */
  ghost predicate Simulates(swept: Book, unswept: Book, now: int) {
    && (forall h :: h in swept ==> h in unswept && swept[h] == unswept[h])
    && (forall h :: h in unswept && !Expired(unswept[h], now) ==> h in swept)
  }

  lemma LaterSimulates(a: Book, b: Book, t: int, t': int)
    requires Simulates(a, b, t) && t <= t'
    ensures Simulates(a, b, t')
  {
  }

  lemma SimulationStep(a: Book, b: Book, op: Op, now: int)
    requires Simulates(a, b, now)
    ensures Simulates(Apply(a, op, now).0, if op.Cleanup? then b else Apply(b, op, now).0, now)
    ensures op.Get? || op.Approve? ==> Apply(a, op, now).1 == Apply(b, op, now).1
    ensures op.Reject? || op.Consume? ==>
              (op.hash in b && Expired(b[op.hash], now)) || Apply(a, op, now).1 == Apply(b, op, now).1
  {
  }

  lemma {:induction false} SweptSimulatesUnswept(es: seq<Event>)
    requires ClockForward(es)
    ensures forall now :: (es != [] ==> es[|es| - 1].now <= now) ==> Simulates(After(es), Unswept(es), now)
  {
    if es != [] {
      var n := |es| - 1;
      SweptSimulatesUnswept(es[..n]);
      SimulationStep(After(es[..n]), Unswept(es[..n]), es[n].op, es[n].now);
      forall now | es[n].now <= now
        ensures Simulates(After(es), Unswept(es), now)
      {
        LaterSimulates(After(es), Unswept(es), es[n].now, now);
      }
    }
  }

  /**
   Sweeping is unobservable: under any schedule of sweeps, every `Get` and every `Approve` gets the answer
   it would get from a store that is never swept; so does every `Reject` and `Consume` of a login that
   has not expired.
   */
  lemma SweepingIsUnobservable(es: seq<Event>, i: nat)
    requires ClockForward(es) && i < |es|
    ensures es[i].op.Get? || es[i].op.Approve? ==> AnswerAt(es, i) == UnsweptAnswerAt(es, i)
    ensures es[i].op.Reject? || es[i].op.Consume? ==>
              || AnswerAt(es, i) == UnsweptAnswerAt(es, i)
              || (es[i].op.hash in Unswept(es[..i]) && Expired(Unswept(es[..i])[es[i].op.hash], es[i].now))
  {
    SweptSimulatesUnswept(es[..i]);
    SimulationStep(After(es[..i]), Unswept(es[..i]), es[i].op, es[i].now);
  }

  /**
   `Reject` and `Consume` do not look at the clock, so there a sweep shows: it changes the answer exactly
   when the login has expired and still awaits that very operation.
   */
  lemma SweepShowsExactlyHere(b: Book, h: string, now: int, identity: Identity)
    ensures (Apply(Swept(b, now), Consume(h), now).1 != Apply(b, Consume(h), now).1) <==>
              (h in b && Expired(b[h], now) && b[h].status == Approved)
    ensures (Apply(Swept(b, now), Reject(h), now).1 != Apply(b, Reject(h), now).1) <==>
              (h in b && Expired(b[h], now) && b[h].status == Pending)
    ensures Apply(Swept(b, now), Get(h), now).1 == Apply(b, Get(h), now).1
    ensures Apply(Swept(b, now), Approve(h, identity), now).1 == Apply(b, Approve(h, identity), now).1
  {
  }

  // ---- one-time login ----

  predicate Creates(e: Event, h: string) { e.op.Create? && e.op.hash == h }

  /** Event `i` approves `h`, rejects it, or hands its login out. */
  ghost predicate ApprovesAt(es: seq<Event>, i: int, h: string) {
    0 <= i < |es| && es[i].op.Approve? && es[i].op.hash == h && AnswerAt(es, i) == Flag(true)
  }

  ghost predicate RejectsAt(es: seq<Event>, i: int, h: string) {
    0 <= i < |es| && es[i].op.Reject? && es[i].op.hash == h && AnswerAt(es, i) == Flag(true)
  }

  ghost predicate LogsInAt(es: seq<Event>, i: int, h: string) {
    0 <= i < |es| && es[i].op.Consume? && es[i].op.hash == h && AnswerAt(es, i) != Found(None)
  }

  /** `generateHash` never repeats itself. */
  ghost predicate FreshHashes(es: seq<Event>) {
    forall i, j :: 0 <= i < j < |es| && es[i].op.Create? && es[j].op.Create? ==> es[i].op.hash != es[j].op.hash
  }

  ghost predicate NotYet(es: seq<Event>, h: string) {
    forall i :: !ApprovesAt(es, i, h) && !RejectsAt(es, i, h) && !LogsInAt(es, i, h)
  }

  /** Event `a` is the one approval of `h`, in time, and the login carries its identity. */
  ghost predicate ApprovedBy(es: seq<Event>, a: int, h: string, login: Login) {
    && ApprovesAt(es, a, h) && (forall i :: ApprovesAt(es, i, h) ==> i == a)
    && login.identity == Some(es[a].op.identity) && es[a].now - login.createdAt <= TTL
  }

  /** What the run says about a login that is in the store. */
  ghost predicate History(es: seq<Event>, h: string, login: Login) {
    && (exists c :: 0 <= c < |es| && Creates(es[c], h) && es[c].op.request == login.request && es[c].now == login.createdAt)
    && (forall i :: !LogsInAt(es, i, h))
    && match login.status
       case Pending => forall i :: !ApprovesAt(es, i, h) && !RejectsAt(es, i, h)
       case Approved => (forall i :: !RejectsAt(es, i, h)) && exists a :: ApprovedBy(es, a, h, login)
       case Rejected => forall i :: !ApprovesAt(es, i, h)
  }

  ghost predicate Inv(es: seq<Event>) {
    && (forall h :: h in After(es) ==> History(es, h, After(es)[h]))
    && (forall h :: (forall i :: 0 <= i < |es| ==> !Creates(es[i], h)) ==> NotYet(es, h))
  }

  /** Adding an event adds at most its own success. */
  lemma MoreEvents(es: seq<Event>, e: Event, h: string)
    ensures var es' := es + [e];
            forall i :: i != |es| ==>
              && (ApprovesAt(es', i, h) <==> ApprovesAt(es, i, h))
              && (RejectsAt(es', i, h) <==> RejectsAt(es, i, h))
              && (LogsInAt(es', i, h) <==> LogsInAt(es, i, h))
  {
    var es' := es + [e];
    forall i | 0 <= i < |es|
      ensures es'[i] == es[i] && AnswerAt(es', i) == AnswerAt(es, i)
    {
      assert es'[..i] == es[..i];
    }
  }

  ghost predicate Silent(es: seq<Event>, h: string) {
    var n := |es| - 1;
    !ApprovesAt(es, n, h) && !RejectsAt(es, n, h) && !LogsInAt(es, n, h)
  }

  /** An event without success for `h` keeps what is known of `h`. */
  lemma HistoryKept(es: seq<Event>, e: Event, h: string, login: Login)
    requires History(es, h, login) && Silent(es + [e], h)
    ensures History(es + [e], h, login)
  {
    var es' := es + [e];
    MoreEvents(es, e, h);
    var c :| 0 <= c < |es| && Creates(es[c], h) && es[c].op.request == login.request && es[c].now == login.createdAt;
    assert es'[c] == es[c];
    if login.status.Approved? {
      var a :| ApprovedBy(es, a, h, login);
      assert es'[a] == es[a];
      assert ApprovedBy(es', a, h, login);
    }
  }

  /** The answer to the last event is that of the store before it. */
  lemma LastAnswer(es: seq<Event>, e: Event)
    ensures After(es + [e]) == Apply(After(es), e.op, e.now).0
    ensures AnswerAt(es + [e], |es|) == Apply(After(es), e.op, e.now).1
  {
    assert (es + [e])[..|es|] == es;
  }

  lemma CreateStep(es: seq<Event>, e: Event, h: string)
    requires Inv(es) && FreshHashes(es + [e]) && Creates(e, h)
    ensures History(es + [e], h, After(es + [e])[h])
  {
    var es' := es + [e];
    LastAnswer(es, e);
    MoreEvents(es, e, h);
    forall i | 0 <= i < |es|
      ensures !Creates(es[i], h)
    {
      assert es'[i] == es[i] && es'[|es|] == e;
    }
    assert NotYet(es, h);
    assert es'[|es|] == e && Creates(es'[|es|], h);
  }

  lemma ApproveStep(es: seq<Event>, e: Event, h: string)
    requires Inv(es) && e.op.Approve? && e.op.hash == h && h in After(es + [e]) && ApprovesAt(es + [e], |es|, h)
    ensures History(es + [e], h, After(es + [e])[h])
  {
    var es' := es + [e];
    LastAnswer(es, e);
    MoreEvents(es, e, h);
    var login := After(es)[h];
    assert login.status == Pending && History(es, h, login);
    var c :| 0 <= c < |es| && Creates(es[c], h) && es[c].op.request == login.request && es[c].now == login.createdAt;
    assert es'[c] == es[c];
    assert ApprovedBy(es', |es|, h, After(es')[h]);
  }

  lemma RejectStep(es: seq<Event>, e: Event, h: string)
    requires Inv(es) && e.op.Reject? && e.op.hash == h && h in After(es + [e]) && RejectsAt(es + [e], |es|, h)
    ensures History(es + [e], h, After(es + [e])[h])
  {
    var es' := es + [e];
    LastAnswer(es, e);
    MoreEvents(es, e, h);
    var login := After(es)[h];
    assert login.status == Pending && History(es, h, login);
    var c :| 0 <= c < |es| && Creates(es[c], h) && es[c].op.request == login.request && es[c].now == login.createdAt;
    assert es'[c] == es[c];
  }

  /** What an operation leaves in the store: the login it created, approved or rejected, or one that was there. */
  lemma ApplySources(b: Book, op: Op, now: int, h: string)
    requires h in Apply(b, op, now).0
    ensures var (b', answer) := Apply(b, op, now);
            || (op.Create? && op.hash == h)
            || ((op.Approve? || op.Reject?) && op.hash == h && answer == Flag(true))
            || (h in b && b'[h] == b[h]
                && ((op.Approve? || op.Reject?) && op.hash == h ==> answer == Flag(false))
                && (op.Consume? ==> op.hash != h))
  {
  }

  lemma WhereLoginsComeFrom(es: seq<Event>, e: Event, h: string)
    requires h in After(es + [e])
    ensures || Creates(e, h)
            || (e.op.Approve? && e.op.hash == h && ApprovesAt(es + [e], |es|, h))
            || (e.op.Reject? && e.op.hash == h && RejectsAt(es + [e], |es|, h))
            || (h in After(es) && After(es + [e])[h] == After(es)[h] && Silent(es + [e], h))
  {
    LastAnswer(es, e);
    ApplySources(After(es), e.op, e.now, h);
    assert (es + [e])[|es|] == e;
  }

  lemma StepKeepsInv(es: seq<Event>, e: Event)
    requires Inv(es) && FreshHashes(es + [e])
    ensures Inv(es + [e])
  {
    var es' := es + [e];
    forall h | h in After(es')
      ensures History(es', h, After(es')[h])
    {
      WhereLoginsComeFrom(es, e, h);
      if Creates(e, h) {
        CreateStep(es, e, h);
      } else if ApprovesAt(es', |es|, h) {
        ApproveStep(es, e, h);
      } else if RejectsAt(es', |es|, h) {
        RejectStep(es, e, h);
      } else {
        HistoryKept(es, e, h, After(es)[h]);
      }
    }
    forall h | forall i :: 0 <= i < |es'| ==> !Creates(es'[i], h)
      ensures NotYet(es', h)
    {
      assert forall i :: 0 <= i < |es| ==> es'[i] == es[i];
      assert NotYet(es, h);
      MoreEvents(es, e, h);
      LastAnswer(es, e);
      assert h !in After(es);
    }
  }

  lemma {:induction false} RunKeepsInv(es: seq<Event>)
    requires FreshHashes(es)
    ensures Inv(es)
  {
    if es != [] {
      var n := |es| - 1;
      RunKeepsInv(es[..n]);
      assert es == es[..n] + [es[n]];
      StepKeepsInv(es[..n], es[n]);
    }
  }

  lemma PrefixEvents(es: seq<Event>, n: nat, h: string)
    requires n <= |es|
    ensures forall i :: i < n ==>
              && (ApprovesAt(es[..n], i, h) <==> ApprovesAt(es, i, h))
              && (RejectsAt(es[..n], i, h) <==> RejectsAt(es, i, h))
              && (LogsInAt(es[..n], i, h) <==> LogsInAt(es, i, h))
  {
    forall i | 0 <= i < n
      ensures es[..n][i] == es[i] && AnswerAt(es[..n], i) == AnswerAt(es, i)
    {
      assert es[..n][..i] == es[..i];
    }
  }

  /** A login comes from exactly one approval, made within the TTL of its creation, and carries its identity. */
  lemma LoginComesFromOneApproval(es: seq<Event>, j: nat, h: string)
    requires FreshHashes(es) && LogsInAt(es, j, h)
    ensures exists c, a ::
              && 0 <= c < j && Creates(es[c], h)
              && 0 <= a < j && ApprovesAt(es, a, h) && (forall i :: i < j && ApprovesAt(es, i, h) ==> i == a)
              && es[a].now - es[c].now <= TTL
              && AnswerAt(es, j) == Found(Some(Login(es[c].op.request, es[c].now, Approved, Some(es[a].op.identity))))
    ensures forall i :: i < j ==> !RejectsAt(es, i, h) && !LogsInAt(es, i, h)
  {
    RunKeepsInv(es[..j]);
    PrefixEvents(es, j, h);
    var login := After(es[..j])[h];
    assert History(es[..j], h, login);
    var c :| 0 <= c < j && Creates(es[..j][c], h) && es[..j][c].op.request == login.request && es[..j][c].now == login.createdAt;
    var a :| ApprovedBy(es[..j], a, h, login);
    assert es[..j][c] == es[c] && es[..j][a] == es[a];
    assert ApprovesAt(es, a, h);
  }

  /** Once out of the store, a hash stays out: it is never created again. */
  lemma {:induction false} GoneForGood(es: seq<Event>, c: nat, j: nat, h: string)
    requires FreshHashes(es) && c < j <= |es| && Creates(es[c], h) && h !in After(es[..j])
    ensures h !in After(es)
    decreases |es|
  {
    if j == |es| {
      assert es[..j] == es;
    } else {
      var n := |es| - 1;
      assert es[..n][..j] == es[..j];
      GoneForGood(es[..n], c, j, h);
      assert !Creates(es[n], h);
    }
  }

  lemma NothingAfterLogin(es: seq<Event>, c: nat, j: nat, i: nat, h: string)
    requires FreshHashes(es) && LogsInAt(es, j, h) && c < j < i < |es| && Creates(es[c], h)
    ensures !LogsInAt(es, i, h) && !RejectsAt(es, i, h) && !ApprovesAt(es, i, h)
  {
    assert es[..j + 1][..j] == es[..j];
    assert es[..i][..j + 1] == es[..j + 1];
    assert h !in After(es[..j + 1]);
    GoneForGood(es[..i], c, j + 1, h);
  }

  /** One-time use: a hash logs in at most once, and not at all if it is ever rejected. */
  lemma OneTimeLogin(es: seq<Event>, j: nat, h: string)
    requires FreshHashes(es) && LogsInAt(es, j, h)
    ensures forall i :: i != j ==> !LogsInAt(es, i, h)
    ensures forall i :: !RejectsAt(es, i, h)
    ensures exists a :: ApprovesAt(es, a, h) && a < j && forall i :: ApprovesAt(es, i, h) ==> i == a
  {
    LoginComesFromOneApproval(es, j, h);
    var c, a :| 0 <= c < j && Creates(es[c], h)
             && 0 <= a < j && ApprovesAt(es, a, h) && (forall i :: i < j && ApprovesAt(es, i, h) ==> i == a);
    forall i | j < i < |es|
      ensures !LogsInAt(es, i, h) && !RejectsAt(es, i, h) && !ApprovesAt(es, i, h)
    {
      NothingAfterLogin(es, c, j, i, h);
    }
  }

  // ---- how long an approval can be used ----

  /**
   Event `e` removes the approved login of `h`: it is consumed or deleted or, once it has expired, swept or
   approved a second time.
   */
  predicate Removes(e: Event, h: string, createdAt: int) {
    match e.op
    case Consume(g) => g == h
    case Delete(g) => g == h
    case Approve(g, _) => g == h && e.now - createdAt > TTL
    case Cleanup => e.now - createdAt > TTL
    case _ => false
  }

  /** No event after `a` and before `n` removes it. */
  ghost predicate Untouched(es: seq<Event>, a: int, n: nat, h: string, createdAt: int) {
    forall x :: a < x < n && 0 <= x < |es| ==> !Removes(es[x], h, createdAt)
  }

  /** The login the approval at `a` made of the one created at `c`. */
  function ApprovedLogin(es: seq<Event>, c: nat, a: nat): Login
    requires c < |es| && es[c].op.Create? && a < |es| && es[a].op.Approve?
  {
    Login(es[c].op.request, es[c].now, Approved, Some(es[a].op.identity))
  }

  lemma ApprovalStores(es: seq<Event>, c: nat, a: nat, h: string)
    requires FreshHashes(es) && c < |es| && Creates(es[c], h) && ApprovesAt(es, a, h)
    ensures c < a && a < |es| && h in After(es[..a + 1]) && After(es[..a + 1])[h] == ApprovedLogin(es, c, a)
  {
    assert es[..a + 1] == es[..a] + [es[a]];
    LastAnswer(es[..a], es[a]);
    RunKeepsInv(es[..a]);
    var login := After(es[..a])[h];
    assert History(es[..a], h, login);
    var d :| 0 <= d < a && Creates(es[..a][d], h) && es[..a][d].op.request == login.request && es[..a][d].now == login.createdAt;
    assert es[..a][d] == es[d] && d == c;
  }

  /** One event keeps an approved login as it is, unless it removes it or creates its hash anew. */
  lemma ApprovedStep(b: Book, e: Event, h: string, login: Login)
    requires h in b && b[h] == login && login.status == Approved && !Creates(e, h)
    ensures var b' := Apply(b, e.op, e.now).0;
            (h in b' <==> !Removes(e, h, login.createdAt)) && (h in b' ==> b'[h] == login)
  {
  }

  /** An approved login stays in the store, as it is, exactly until the first event that removes it. */
  lemma {:induction false} StaysUntilRemoved(es: seq<Event>, c: nat, a: nat, n: nat, h: string)
    requires FreshHashes(es) && c < |es| && Creates(es[c], h) && ApprovesAt(es, a, h) && a < n <= |es|
    ensures h in After(es[..n]) <==> Untouched(es, a, n, h, es[c].now)
    ensures h in After(es[..n]) ==> After(es[..n])[h] == ApprovedLogin(es, c, a)
    decreases n
  {
    ApprovalStores(es, c, a, h);
    if n > a + 1 {
      var m := n - 1;
      StaysUntilRemoved(es, c, a, m, h);
      assert es[..n] == es[..m] + [es[m]];
      LastAnswer(es[..m], es[m]);
      assert !Creates(es[m], h);
      if h in After(es[..m]) {
        ApprovedStep(After(es[..m]), es[m], h, ApprovedLogin(es, c, a));
      }
    }
  }

  /**
   Which logins succeed. A `Consume` hands a login out if and only if its hash was created and then approved
   and nothing has removed it since: neither a `Consume` or `Delete` nor, after its time to live, a sweep or
   another `Approve`. The time of the `Consume` itself does not matter.
   */
  lemma ConsumeSucceedsIff(es: seq<Event>, n: nat, h: string)
    requires FreshHashes(es) && n < |es| && es[n].op == Consume(h)
    ensures LogsInAt(es, n, h) <==>
              exists c, a :: 0 <= c < a < n && Creates(es[c], h) && ApprovesAt(es, a, h) && Untouched(es, a, n, h, es[c].now)
  {
    if LogsInAt(es, n, h) {
      LoginComesFromOneApproval(es, n, h);
      var c, a :| 0 <= c < n && Creates(es[c], h) && 0 <= a < n && ApprovesAt(es, a, h);
      ApprovalStores(es, c, a, h);
      StaysUntilRemoved(es, c, a, n, h);
    }
    if c, a :| 0 <= c < a < n && Creates(es[c], h) && ApprovesAt(es, a, h) && Untouched(es, a, n, h, es[c].now) {
      StaysUntilRemoved(es, c, a, n, h);
    }
  }

  // ---- what every answer says about the run ----

  /** Event `e` decides a pending login: a rejection, or an approval before it expires. */
  predicate Decides(e: Event, h: string, createdAt: int) {
    match e.op
    case Reject(g) => g == h
    case Approve(g, _) => g == h && e.now - createdAt <= 5 * 60 * 1000
    case _ => false
  }

  /** Event `d` is the first after `c` and before `n` that decides it. */
  ghost predicate DecidedAt(es: seq<Event>, c: nat, d: int, n: nat, h: string, createdAt: int) {
    && c < d < n && d < |es| && Decides(es[d], h, createdAt)
    && forall x :: c < x < d ==> !Decides(es[x], h, createdAt)
  }

  ghost predicate Undecided(es: seq<Event>, c: nat, n: nat, h: string, createdAt: int) {
    forall x :: c < x < n && x < |es| ==> !Decides(es[x], h, createdAt)
  }

  /** The login is the one created at `c`, with the first decision made about it since, if any. */
  ghost predicate IsLoginOf(es: seq<Event>, c: nat, n: nat, h: string, login: Login)
    requires c < |es| && es[c].op.Create?
  {
    && login.request == es[c].op.request && login.createdAt == es[c].now
    && (Undecided(es, c, n, h, es[c].now) ==> login.status == Pending && login.identity == None)
    && (forall d :: DecidedAt(es, c, d, n, h, es[c].now) ==>
          if es[d].op.Reject? then login.status == Rejected && login.identity == None
          else login.status == Approved && login.identity == Some(es[d].op.identity))
  }

  /** What an event that does not remove a login makes of it. */
  function LoginAfter(login: Login, e: Event, h: string): Login {
    if login.status != Pending || !Decides(e, h, login.createdAt) then login
    else if e.op.Reject? then login.(status := Rejected)
    else login.(status := Approved, identity := Some(e.op.identity))
  }

  lemma CreatedStep(b: Book, e: Event, h: string, login: Login)
    requires h in b && b[h] == login && !Creates(e, h)
    ensures var b' := Apply(b, e.op, e.now).0;
            && (h in b' <==> !Removes(e, h, login.createdAt))
            && (h in b' ==> b'[h] == LoginAfter(login, e, h))
  {
  }

  lemma UndecidedOrDecided(es: seq<Event>, c: nat, n: nat, h: string, createdAt: int)
    requires n <= |es|
    ensures Undecided(es, c, n, h, createdAt) || exists d :: DecidedAt(es, c, d, n, h, createdAt)
  {
    if n > 0 {
      var m := n - 1;
      UndecidedOrDecided(es, c, m, h, createdAt);
      if d :| DecidedAt(es, c, d, m, h, createdAt) {
        assert DecidedAt(es, c, d, n, h, createdAt);
      } else if c < m && Decides(es[m], h, createdAt) {
        assert DecidedAt(es, c, m, n, h, createdAt);
      }
    }
  }

  /** One more event adds to what is known of the login: nothing, or its first decision. */
  lemma LoginOfOneMore(es: seq<Event>, c: nat, m: nat, h: string, login: Login, login': Login)
    requires c < m < |es| && es[c].op.Create? && IsLoginOf(es, c, m, h, login)
    requires login' == LoginAfter(login, es[m], h)
    ensures IsLoginOf(es, c, m + 1, h, login')
  {
    var n, created := m + 1, es[c].now;
    UndecidedOrDecided(es, c, m, h, created);
    if Undecided(es, c, m, h, created) {
      assert forall d :: DecidedAt(es, c, d, n, h, created) ==> d == m;
    } else {
      var first :| DecidedAt(es, c, first, m, h, created);
      assert login' == login;
      assert forall d :: DecidedAt(es, c, d, n, h, created) ==> d == first;
    }
  }

  /** What is known of a created login before event `m`. */
  ghost predicate KnownAt(es: seq<Event>, c: nat, m: nat, h: string)
    requires c < |es| && es[c].op.Create? && m <= |es|
  {
    && (h in After(es[..m]) <==> Untouched(es, c, m, h, es[c].now))
    && (h in After(es[..m]) ==> IsLoginOf(es, c, m, h, After(es[..m])[h]))
  }

  lemma AfterOneMore(es: seq<Event>, m: nat)
    requires m < |es|
    ensures After(es[..m + 1]) == Apply(After(es[..m]), es[m].op, es[m].now).0
  {
    assert es[..m + 1] == es[..m] + [es[m]];
    LastAnswer(es[..m], es[m]);
  }

  lemma StoredOneMore(es: seq<Event>, c: nat, m: nat, h: string)
    requires FreshHashes(es) && c < m < |es| && Creates(es[c], h) && KnownAt(es, c, m, h)
    ensures h in After(es[..m + 1]) ==> h in After(es[..m]) && After(es[..m + 1])[h] == LoginAfter(After(es[..m])[h], es[m], h)
    ensures h in After(es[..m + 1]) <==> Untouched(es, c, m + 1, h, es[c].now)
  {
    AfterOneMore(es, m);
    assert !Creates(es[m], h);
    var b := After(es[..m]);
    if h in b {
      CreatedStep(b, es[m], h, b[h]);
    }
  }

  lemma KnownOneMore(es: seq<Event>, c: nat, m: nat, h: string)
    requires FreshHashes(es) && c < m < |es| && Creates(es[c], h) && KnownAt(es, c, m, h)
    ensures KnownAt(es, c, m + 1, h)
  {
    StoredOneMore(es, c, m, h);
    if h in After(es[..m + 1]) {
      LoginOfOneMore(es, c, m, h, After(es[..m])[h], After(es[..m + 1])[h]);
    }
  }

  /** A created login stays in the store until the first event that removes it, and shows the first decision. */
  lemma {:induction false} CreatedUntilRemoved(es: seq<Event>, c: nat, n: nat, h: string)
    requires FreshHashes(es) && c < n <= |es| && Creates(es[c], h)
    ensures KnownAt(es, c, n, h)
    decreases n
  {
    if n == c + 1 {
      assert es[..n] == es[..c] + [es[c]];
      LastAnswer(es[..c], es[c]);
    } else {
      CreatedUntilRemoved(es, c, n - 1, h);
      KnownOneMore(es, c, n - 1, h);
    }
  }

  lemma StoredWasCreated(es: seq<Event>, n: nat, h: string) returns (c: nat)
    requires FreshHashes(es) && n <= |es| && h in After(es[..n])
    ensures c < n && Creates(es[c], h)
  {
    RunKeepsInv(es[..n]);
    assert History(es[..n], h, After(es[..n])[h]);
    var d :| 0 <= d < n && Creates(es[..n][d], h);
    c := d;
    assert es[..n][d] == es[d];
  }

  /**
   Which logins `Get` finds: those created and not removed since, up to five minutes after their creation,
   whatever has been decided about them; and it shows that.
   */
  lemma GetFindsIff(es: seq<Event>, n: nat, h: string)
    requires FreshHashes(es) && n < |es| && es[n].op == Get(h)
    ensures AnswerAt(es, n).Found?
    ensures AnswerAt(es, n).login.Some? <==>
              exists c: nat :: c < n && Creates(es[c], h) && Untouched(es, c, n, h, es[c].now) && es[n].now - es[c].now <= 5 * 60 * 1000
    ensures forall c: nat :: AnswerAt(es, n).login.Some? && c < n && Creates(es[c], h) ==>
              IsLoginOf(es, c, n, h, AnswerAt(es, n).login.value)
  {
    if h in After(es[..n]) {
      var c := StoredWasCreated(es, n, h);
      CreatedUntilRemoved(es, c, n, h);
    }
    forall c: nat | c < n && Creates(es[c], h)
      ensures h in After(es[..n]) <==> Untouched(es, c, n, h, es[c].now)
      ensures h in After(es[..n]) ==> IsLoginOf(es, c, n, h, After(es[..n])[h])
    {
      CreatedUntilRemoved(es, c, n, h);
    }
  }

  /** The login of `h` was created, has not been removed and awaits a decision. */
  ghost predicate Awaits(es: seq<Event>, c: nat, n: nat, h: string) {
    && c < n <= |es| && Creates(es[c], h)
    && Untouched(es, c, n, h, es[c].now) && Undecided(es, c, n, h, es[c].now)
  }

  lemma PendingIffAwaits(es: seq<Event>, n: nat, h: string)
    requires FreshHashes(es) && n <= |es|
    ensures h in After(es[..n]) && After(es[..n])[h].status == Pending <==> exists c: nat :: Awaits(es, c, n, h)
    ensures forall c: nat :: Awaits(es, c, n, h) ==> h in After(es[..n]) && After(es[..n])[h].createdAt == es[c].now
  {
    forall c: nat | c < n && Creates(es[c], h)
      ensures h in After(es[..n]) && After(es[..n])[h].status == Pending <==> Awaits(es, c, n, h)
      ensures Awaits(es, c, n, h) ==> After(es[..n])[h].createdAt == es[c].now
    {
      CreatedUntilRemoved(es, c, n, h);
      UndecidedOrDecided(es, c, n, h, es[c].now);
    }
    if h in After(es[..n]) {
      var c := StoredWasCreated(es, n, h);
      assert After(es[..n])[h].status == Pending <==> Awaits(es, c, n, h);
    }
  }

  /** `Reject` answers true exactly for a login that awaits a decision, whatever the time. */
  lemma RejectSucceedsIff(es: seq<Event>, n: nat, h: string)
    requires FreshHashes(es) && n < |es| && es[n].op == Reject(h)
    ensures RejectsAt(es, n, h) <==> exists c: nat :: Awaits(es, c, n, h)
  {
    PendingIffAwaits(es, n, h);
  }

  /** `Approve` answers true exactly for a login that awaits a decision and is not older than five minutes. */
  lemma ApproveSucceedsIff(es: seq<Event>, n: nat, h: string)
    requires FreshHashes(es) && n < |es| && es[n].op.Approve? && es[n].op.hash == h
    ensures ApprovesAt(es, n, h) <==> exists c: nat :: Awaits(es, c, n, h) && es[n].now - es[c].now <= 5 * 60 * 1000
  {
    PendingIffAwaits(es, n, h);
  }

  /** A witness: the time to live bounds the approval, not the login, which may come any time later. */
  lemma LateConsumeSucceeds(request: Request, identity: Identity, h: string, late: nat)
    ensures var es := [Event(Create(h, request), 0), Event(Approve(h, identity), TTL), Event(Consume(h), TTL + late)];
            LogsInAt(es, 2, h)
  {
    var e0, e1, e2 := Event(Create(h, request), 0), Event(Approve(h, identity), TTL), Event(Consume(h), TTL + late);
    LastAnswer([], e0);
    LastAnswer([e0], e1);
    LastAnswer([e0, e1], e2);
    assert [] + [e0] == [e0] && [e0] + [e1] == [e0, e1] && [e0, e1] + [e2] == [e0, e1, e2];
  }
}
