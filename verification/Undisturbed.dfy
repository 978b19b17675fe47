/**
 The steps of one connection with nothing in between are the handshake and the cleanup as they are
 written: the step machine and the sequential methods of the server describe the same code.
 */
module Undisturbed {
  import opened ControlPlane
  import opened Options
  import opened Registries

  function ControlOf(w: World): Control { Control(w.routes, w.users, w.closed) }

  /** The answers a connection gets from its client and the database. */
  datatype Input = Input(names: Option<seq<string>>, dbErrors: seq<bool>, exempt: bool)

  /** The next step of connection `s`, on these answers. */
  function Move(s: nat, p: Proc, input: Input): Event {
    var names := if input.names.Some? then input.names.value else [];
    var fails := match p
      case Requesting(_) => input.names.None?
      case Binding(_, _, i, _) => i < |input.dbErrors| && input.dbErrors[i]
      case _ => false;
    Act(s, names, fails, input.exempt)
  }

  predicate Settled(p: Proc) { p.Monitoring? || p.Finished? }

  function Phase(p: Proc): nat {
    match p
    case Authenticated(_, _) => 7
    case Evicting(_, _, _) => 6
    case Closing(_, _) => 5
    case Dropping(_, _) => 4
    case Requesting(_) => 3
    case Binding(_, _, _, _) => 2
    case Registering(_, _) => 1
    case Cleaning(_, _, _) => 1
    case _ => 0
  }

  function Left(p: Proc): int {
    match p
    case Evicting(_, previous, i) => if i < |previous.domains| then |previous.domains| - i else 0
    case Binding(_, names, i, _) => if i < |names| then |names| - i else 0
    case Cleaning(_, bound, i) => if i < |bound| then |bound| - i else 0
    case _ => 0
  }

  /** Connection `s` moves, and nothing else does, until it waits for its session to close or is done. */
  function Alone(w: World, s: nat, input: Input): World
    requires s in w.procs
    decreases Phase(w.procs[s]), Left(w.procs[s])
  {
    var p := w.procs[s];
    if Settled(p) then w else Alone(Next(w, Move(s, p, input)), s, input)
  }

  function At(w: World, s: nat, c: Control, p: Proc): World {
    w.(routes := c.routes, users := c.users, closed := c.closed, procs := w.procs[s := p])
  }

  ghost predicate Moves(w: World, w': World, s: nat, input: Input) {
    s in w.procs && !Settled(w.procs[s]) && w' == Next(w, Move(s, w.procs[s], input))
  }

  /** One step takes control state `c` and connection state `p` to `c'` and `p'`. */
  ghost predicate Leads(w: World, s: nat, input: Input, c: Control, p: Proc, c': Control, p': Proc) {
    Moves(At(w, s, c, p), At(w, s, c', p'), s, input)
  }

  /** `r` holds of more worlds the more connection `s` moves; it stands for being on the way of `Alone`. */
  ghost predicate Follows(r: World -> bool, s: nat, input: Input) {
    forall w: World, w' :: r(w) && Moves(w, w', s, input) ==> r(w')
  }

  /** The connection has settled only in `end`. */
  ghost predicate SettlesAt(r: World -> bool, s: nat, end: World) {
    forall v: World :: r(v) && s in v.procs && Settled(v.procs[s]) ==> v == end
  }

  /** The worlds from which `Alone` gets to `end`. */
  ghost function EndsAs(end: World, s: nat, input: Input): World -> bool {
    (v: World) => s in v.procs && Alone(v, s, input) == end
  }

  lemma OnTheWay(end: World, s: nat, input: Input)
    ensures Follows(EndsAs(end, s, input), s, input) && SettlesAt(EndsAs(end, s, input), s, end)
  {
  }

  lemma Onward(r: World -> bool, w: World, s: nat, input: Input, c: Control, p: Proc, c': Control, p': Proc)
    requires Follows(r, s, input) && r(At(w, s, c, p)) && Leads(w, s, input, c, p, c', p')
    ensures r(At(w, s, c', p'))
  {
  }

  /** The domains of the previous session go one by one. */
  lemma {:induction false} EvictsAll(r: World -> bool, w: World, s: nat, input: Input, c: Control, u: nat,
                                     previous: UserSession, i: nat)
    requires Follows(r, s, input) && i <= |previous.domains| && r(At(w, s, c, Evicting(u, previous, i)))
    ensures r(At(w, s, c.(routes := c.routes - ToSet(previous.domains[i..])), Closing(u, previous)))
    decreases |previous.domains| - i
  {
    var domains := previous.domains;
    if i == |domains| {
      assert c.routes - ToSet(domains[i..]) == c.routes;
      Onward(r, w, s, input, c, Evicting(u, previous, i), c, Closing(u, previous));
    } else {
      var c' := c.(routes := c.routes - {domains[i]});
      Onward(r, w, s, input, c, Evicting(u, previous, i), c', Evicting(u, previous, i + 1));
      EvictsAll(r, w, s, input, c', u, previous, i + 1);
      RemoveFirst(c.routes, domains, i);
    }
  }

  lemma RemoveFirst(routes: Routes, hosts: seq<string>, i: nat)
    requires i < |hosts|
    ensures routes - ToSet(hosts[i..]) == routes - {hosts[i]} - ToSet(hosts[i + 1..])
  {
    assert hosts[i..] == [hosts[i]] + hosts[i + 1..];
    assert ToSet(hosts[i..]) == {hosts[i]} + ToSet(hosts[i + 1..]);
  }

  function BindFirstOf(w: World, s: nat, input: Input, u: nat, routes0: Routes, i: nat): (Routes, seq<string>)
    requires input.names.Some? && i <= |input.names.value| == |input.dbErrors|
  {
    BindFirst(w.owners, w.root, s, u, input.exempt, routes0, input.names.value, input.dbErrors, i)
  }

  lemma BindingLeads(w: World, s: nat, input: Input, c: Control, u: nat, i: nat, bound: seq<string>)
    requires input.names.Some? && i < |input.names.value| == |input.dbErrors|
    ensures var names := input.names.value;
            var (r, b) := BindOne(w.owners, w.root, s, u, input.exempt, c.routes, bound, names[i], input.dbErrors[i]);
            Leads(w, s, input, c, Binding(u, names, i, bound), c.(routes := r), Binding(u, names, i + 1, b))
  {
  }

  lemma BindsOne(w: World, s: nat, input: Input, c: Control, u: nat, routes0: Routes, i: nat)
    requires input.names.Some? && i < |input.names.value| == |input.dbErrors|
    ensures var (r, b) := BindFirstOf(w, s, input, u, routes0, i);
            var (r', b') := BindFirstOf(w, s, input, u, routes0, i + 1);
            Leads(w, s, input, c.(routes := r), Binding(u, input.names.value, i, b),
                  c.(routes := r'), Binding(u, input.names.value, i + 1, b'))
  {
    var (r, b) := BindFirstOf(w, s, input, u, routes0, i);
    var (r', b') := BindFirstOf(w, s, input, u, routes0, i + 1);
    var c1 := c.(routes := r);
    BindingLeads(w, s, input, c1, u, i, b);
    assert c1.(routes := r') == c.(routes := r');
  }

  /** The first `i` names are bound one by one. */
  lemma {:induction false} BindsFirst(r: World -> bool, w: World, s: nat, input: Input, c: Control, u: nat, i: nat)
    requires Follows(r, s, input) && input.names.Some? && i <= |input.names.value| == |input.dbErrors|
    requires r(At(w, s, c, Binding(u, input.names.value, 0, [])))
    ensures var (routes, bound) := BindFirstOf(w, s, input, u, c.routes, i);
            r(At(w, s, c.(routes := routes), Binding(u, input.names.value, i, bound)))
  {
    if i == 0 {
      assert c.(routes := c.routes) == c;
    } else {
      var (r0, b0) := BindFirstOf(w, s, input, u, c.routes, i - 1);
      var (r1, b1) := BindFirstOf(w, s, input, u, c.routes, i);
      BindsFirst(r, w, s, input, c, u, i - 1);
      BindsOne(w, s, input, c, u, c.routes, i - 1);
      Onward(r, w, s, input, c.(routes := r0), Binding(u, input.names.value, i - 1, b0),
             c.(routes := r1), Binding(u, input.names.value, i, b1));
    }
  }

  /** What the reply leaves the connection doing. */
  function Afterwards(user: nat, reply: Reply): Proc {
    if reply.Connected? then Monitoring(user, reply.domains) else Finished(user)
  }

  /** After the last name: the end of a connection that bound none, or the registration. */
  lemma NothingBound(r: World -> bool, w: World, s: nat, input: Input, c: Control, u: nat, names: seq<string>)
    requires Follows(r, s, input) && r(At(w, s, c, Binding(u, names, |names|, [])))
    ensures r(At(w, s, c.(closed := c.closed + {s}), Finished(u)))
  {
    Onward(r, w, s, input, c, Binding(u, names, |names|, []), c.(closed := c.closed + {s}), Finished(u));
  }

  lemma BoundLeads(w: World, s: nat, input: Input, c: Control, u: nat, names: seq<string>, bound: seq<string>)
    requires bound != []
    ensures Leads(w, s, input, c, Binding(u, names, |names|, bound), c, Registering(u, bound))
  {
  }

  lemma RegisteringLeads(w: World, s: nat, input: Input, c: Control, u: nat, bound: seq<string>)
    ensures Leads(w, s, input, c, Registering(u, bound),
                  c.(users := c.users[u := UserSession(u, s, bound)]), Monitoring(u, bound))
  {
  }

  lemma BoundRegisters(r: World -> bool, w: World, s: nat, input: Input, c: Control, u: nat, names: seq<string>, bound: seq<string>)
    requires Follows(r, s, input) && bound != [] && r(At(w, s, c, Binding(u, names, |names|, bound)))
    ensures r(At(w, s, c.(users := c.users[u := UserSession(u, s, bound)]), Monitoring(u, bound)))
  {
    BoundLeads(w, s, input, c, u, names, bound);
    Onward(r, w, s, input, c, Binding(u, names, |names|, bound), c, Registering(u, bound));
    RegisteringLeads(w, s, input, c, u, bound);
    var c' := c.(users := c.users[u := UserSession(u, s, bound)]);
    Onward(r, w, s, input, c, Registering(u, bound), c', Monitoring(u, bound));
  }

  lemma RequestIsServed(r: World -> bool, w: World, s: nat, input: Input, c: Control, u: nat)
    requires input.names.Some? ==> |input.names.value| == |input.dbErrors|
    requires Follows(r, s, input) && r(At(w, s, c, Requesting(u)))
    ensures var (c', reply) := Serve(w.owners, w.root, c, s, u, input.names, input.dbErrors, input.exempt);
            r(At(w, s, c', Afterwards(u, reply)))
  {
    if input.names.None? {
      Onward(r, w, s, input, c, Requesting(u), c.(closed := c.closed + {s}), Finished(u));
    } else {
      var names := input.names.value;
      Onward(r, w, s, input, c, Requesting(u), c, Binding(u, names, 0, []));
      BindsFirst(r, w, s, input, c, u, |names|);
      var (routes, bound) := BindFirstOf(w, s, input, u, c.routes, |names|);
      if bound == [] {
        NothingBound(r, w, s, input, c.(routes := routes), u, names);
      } else {
        BoundRegisters(r, w, s, input, c.(routes := routes), u, names, bound);
      }
    }
  }

  lemma TakeoverEvicts(r: World -> bool, w: World, s: nat, input: Input, c: Control, u: nat)
    requires Follows(r, s, input) && u in c.users && r(At(w, s, c, Evicting(u, c.users[u], 0)))
    ensures r(At(w, s, Evict(c, u), Requesting(u)))
  {
    var previous := c.users[u];
    EvictsAll(r, w, s, input, c, u, previous, 0);
    assert previous.domains[0..] == previous.domains;
    var c1 := c.(routes := c.routes - ToSet(previous.domains));
    var c2 := c1.(closed := c.closed + {previous.session});
    Onward(r, w, s, input, c1, Closing(u, previous), c2, Dropping(u, previous));
    Onward(r, w, s, input, c2, Dropping(u, previous), Evict(c, u), Requesting(u));
  }

  lemma HandshakeFollows(r: World -> bool, w: World, s: nat, c: Control, u: nat, force: bool, input: Input)
    requires input.names.Some? ==> |input.names.value| == |input.dbErrors|
    requires Follows(r, s, input) && r(At(w, s, c, Authenticated(u, force)))
    ensures var (c', reply) := Handshake(w.owners, w.root, c, s, u, force, input.names, input.dbErrors, input.exempt);
            r(At(w, s, c', Afterwards(u, reply)))
  {
    var p := Authenticated(u, force);
    if u !in c.users {
      Onward(r, w, s, input, c, p, c, Requesting(u));
      RequestIsServed(r, w, s, input, c, u);
    } else if force {
      Onward(r, w, s, input, c, p, c, Evicting(u, c.users[u], 0));
      TakeoverEvicts(r, w, s, input, c, u);
      RequestIsServed(r, w, s, input, Evict(c, u), u);
    } else {
      Onward(r, w, s, input, c, p, c.(closed := c.closed + {s}), Finished(u));
    }
  }

  lemma HandshakeArrives(r: World -> bool, w: World, s: nat, u: nat, force: bool, input: Input, end: World)
    requires s in w.procs && w.procs[s] == Authenticated(u, force)
    requires input.names.Some? ==> |input.names.value| == |input.dbErrors|
    requires Follows(r, s, input) && SettlesAt(r, s, end) && r(w)
    ensures var (c, reply) := Handshake(w.owners, w.root, ControlOf(w), s, u, force, input.names, input.dbErrors, input.exempt);
            end == At(w, s, c, Afterwards(u, reply))
  {
    assert w == At(w, s, ControlOf(w), w.procs[s]);
    HandshakeFollows(r, w, s, ControlOf(w), u, force, input);
  }

  /** A handshake that is not disturbed does what `Handshake` says, and leaves the rest of the world alone. */
  lemma AloneIsHandshake(w: World, s: nat, u: nat, force: bool, input: Input)
    requires s in w.procs && w.procs[s] == Authenticated(u, force)
    requires input.names.Some? ==> |input.names.value| == |input.dbErrors|
    ensures var (c, reply) := Handshake(w.owners, w.root, ControlOf(w), s, u, force, input.names, input.dbErrors, input.exempt);
            Alone(w, s, input) == At(w, s, c, Afterwards(u, reply))
  {
    var end := Alone(w, s, input);
    OnTheWay(end, s, input);
    HandshakeArrives(EndsAs(end, s, input), w, s, u, force, input, end);
  }

  lemma {:induction false} CleanupFollows(r: World -> bool, w: World, s: nat, input: Input, c: Control, u: nat,
                                          bound: seq<string>, i: nat)
    requires Follows(r, s, input) && i <= |bound| && r(At(w, s, c, Cleaning(u, bound, i)))
    ensures r(At(w, s, CleanedUp(c, u, bound[i..]), Finished(u)))
    decreases |bound| - i
  {
    if i == |bound| {
      assert c.routes - ToSet(bound[i..]) == c.routes;
      Onward(r, w, s, input, c, Cleaning(u, bound, i), CleanedUp(c, u, bound[i..]), Finished(u));
    } else {
      var c' := c.(routes := c.routes - {bound[i]});
      Onward(r, w, s, input, c, Cleaning(u, bound, i), c', Cleaning(u, bound, i + 1));
      CleanupFollows(r, w, s, input, c', u, bound, i + 1);
      RemoveFirst(c.routes, bound, i);
    }
  }

  lemma CleanupArrives(r: World -> bool, w: World, s: nat, u: nat, bound: seq<string>, input: Input, end: World)
    requires s in w.procs && w.procs[s] == Cleaning(u, bound, 0)
    requires Follows(r, s, input) && SettlesAt(r, s, end) && r(w)
    ensures end == At(w, s, CleanedUp(ControlOf(w), u, bound), Finished(u))
  {
    assert w == At(w, s, ControlOf(w), w.procs[s]) && bound[0..] == bound;
    CleanupFollows(r, w, s, input, ControlOf(w), u, bound, 0);
  }

  /** A cleanup that is not disturbed removes what `CleanedUp` says. */
  lemma AloneIsCleanup(w: World, s: nat, input: Input, u: nat, bound: seq<string>)
    requires s in w.procs && w.procs[s] == Cleaning(u, bound, 0)
    ensures Alone(w, s, input) == At(w, s, CleanedUp(ControlOf(w), u, bound), Finished(u))
  {
    var end := Alone(w, s, input);
    OnTheWay(end, s, input);
    CleanupArrives(EndsAs(end, s, input), w, s, u, bound, input, end);
  }
}
