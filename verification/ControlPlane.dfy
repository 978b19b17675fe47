/**
 Handshakes, force takeovers and cleanups of internal/server/server.go as interleaved steps. Each step
 is one access to one registry, so any number of connections of any users may overlap between them.
 */
module ControlPlane {
  import opened Registries

  /** How far the goroutine of one connection has come. */
  datatype Proc =
    | Authenticated(user: nat, force: bool)                                      // about to look for an existing session
    | Evicting(user: nat, previous: UserSession, i: nat)                         // i domains of the previous session unregistered
    | Closing(user: nat, previous: UserSession)                                  // about to close the previous session
    | Dropping(user: nat, previous: UserSession)                                 // about to unregister the user
    | Requesting(user: nat)                                                      // about to read the tunnel request
    | Binding(user: nat, names: seq<string>, i: nat, bound: seq<string>)
    | Registering(user: nat, bound: seq<string>)
    | Monitoring(user: nat, bound: seq<string>)                                  // waiting for the session to close
    | Cleaning(user: nat, bound: seq<string>, i: nat)
    | Finished(user: nat)

  /** `procs` is keyed by the session each connection creates. */
  datatype World = World(root: string, owners: map<string, nat>, routes: Routes, users: Users,
                         closed: set<nat>, procs: map<nat, Proc>)

  datatype Event =
    | Connect(session: nat, user: nat, force: bool)   // a connection passes authentication
    | Claim(name: string, user: nat)                  // a user registers a new domain
    | Close(session: nat)                             // a session closes for whatever reason
    | Act(session: nat, names: seq<string>, fails: bool, exempt: bool)  // the next step of a connection

  predicate Enabled(w: World, e: Event) {
    match e
    case Connect(s, _, _) => s !in w.procs
    case Claim(name, _) => name !in w.owners
    case Close(_) => true
    case Act(s, _, _, _) => s in w.procs && !w.procs[s].Finished? && (w.procs[s].Monitoring? ==> s in w.closed)
  }

  function Next(w: World, e: Event): World
    requires Enabled(w, e)
  {
    match e
    case Connect(s, user, force) => w.(procs := w.procs[s := Authenticated(user, force)])
    case Claim(name, user) => w.(owners := w.owners[name := user])
    case Close(s) => w.(closed := w.closed + {s})
    case Act(s, names, fails, exempt) => Step(w, s, w.procs[s], names, fails, exempt)
  }

  /** The next access of connection `s`. `names` are those to bind, `fails` the request's or the database's error. */
  function Step(w: World, s: nat, p: Proc, names: seq<string>, fails: bool, exempt: bool): World {
    Effect(w, s, p, fails, exempt).(procs := w.procs[s := NextProc(w, s, p, names, fails, exempt)])
  }

  /** Where the connection goes from here. */
  function NextProc(w: World, s: nat, p: Proc, names: seq<string>, fails: bool, exempt: bool): Proc {
    match p
    case Authenticated(u, force) =>
      if u !in w.users then Requesting(u) else if force then Evicting(u, w.users[u], 0) else Finished(u)
    case Evicting(u, previous, i) =>
      if i < |previous.domains| then Evicting(u, previous, i + 1) else Closing(u, previous)
    case Closing(u, previous) => Dropping(u, previous)
    case Dropping(u, _) => Requesting(u)
    case Requesting(u) => if fails then Finished(u) else Binding(u, names, 0, [])
    case Binding(u, asked, i, bound) =>
      if i < |asked| then
        Binding(u, asked, i + 1, BindOne(w.owners, w.root, s, u, exempt, w.routes, bound, asked[i], fails).1)
      else if bound == [] then Finished(u)
      else Registering(u, bound)
    case Registering(u, bound) => Monitoring(u, bound)
    case Monitoring(u, bound) => Cleaning(u, bound, 0)
    case Cleaning(u, bound, i) => if i < |bound| then Cleaning(u, bound, i + 1) else Finished(u)
    case Finished(u) => p
  }

  /** What the access does to the registries and the sessions. */
  function Effect(w: World, s: nat, p: Proc, fails: bool, exempt: bool): World {
    match p
    case Authenticated(u, force) => if u in w.users && !force then w.(closed := w.closed + {s}) else w
    case Evicting(u, previous, i) =>
      if i < |previous.domains| then w.(routes := w.routes - {previous.domains[i]}) else w
    case Closing(u, previous) => w.(closed := w.closed + {previous.session})
    case Dropping(u, _) => w.(users := w.users - {u})
    case Requesting(_) => if fails then w.(closed := w.closed + {s}) else w
    case Binding(u, asked, i, bound) =>
      if i < |asked| then w.(routes := BindOne(w.owners, w.root, s, u, exempt, w.routes, bound, asked[i], fails).0)
      else if bound == [] then w.(closed := w.closed + {s})
      else w
    case Registering(u, bound) => w.(users := w.users[u := UserSession(u, s, bound)])
    case Monitoring(_, _) => w
    case Cleaning(u, bound, i) =>
      if i < |bound| then w.(routes := w.routes - {bound[i]}) else w.(users := w.users - {u})
    case Finished(_) => w
  }

  function Start(root: string): World { World(root, map[], map[], map[], {}, map[]) }

  ghost predicate IsRun(root: string, es: seq<Event>)
    decreases |es|, 0
  {
    es == [] || (IsRun(root, es[..|es| - 1]) && Enabled(After(root, es[..|es| - 1]), es[|es| - 1]))
  }

  ghost function After(root: string, es: seq<Event>): World
    requires IsRun(root, es)
    decreases |es|, 1
  {
    if es == [] then Start(root) else Next(After(root, es[..|es| - 1]), es[|es| - 1])
  }

  // ---- whose hostname ----

  /** The hostname is that of a domain the user owns. */
  ghost predicate Mine(w: World, u: nat, h: string) {
    exists name :: name in w.owners && w.owners[name] == u && Fqdn(w.root, name) == h
  }

  /** Names are unique and appending the root is injective, so a hostname has one owner. */
  lemma MineUnique(w: World, u: nat, v: nat, h: string)
    requires Mine(w, u, h) && Mine(w, v, h)
    ensures u == v
  {
    var a :| a in w.owners && w.owners[a] == u && Fqdn(w.root, a) == h;
    var b :| b in w.owners && w.owners[b] == v && Fqdn(w.root, b) == h;
    FqdnInjective(w.root, a, b);
  }

  ghost predicate AllMine(w: World, u: nat, hosts: seq<string>) {
    forall h :: h in hosts ==> Mine(w, u, h)
  }

  ghost predicate ProcOwns(w: World, p: Proc) {
    match p
    case Evicting(u, previous, _) => AllMine(w, u, previous.domains)
    case Closing(u, previous) => AllMine(w, u, previous.domains)
    case Dropping(u, previous) => AllMine(w, u, previous.domains)
    case Binding(u, _, _, bound) => AllMine(w, u, bound)
    case Registering(u, bound) => AllMine(w, u, bound)
    case Monitoring(u, bound) => AllMine(w, u, bound)
    case Cleaning(u, bound, _) => AllMine(w, u, bound)
    case _ => true
  }

  ghost predicate Owned(w: World) {
    && (forall h :: h in w.routes ==> Mine(w, w.routes[h].user, h))
    && (forall u :: u in w.users ==> w.users[u].user == u && AllMine(w, u, w.users[u].domains))
    && (forall s :: s in w.procs ==> ProcOwns(w, w.procs[s]))
  }

  lemma ClaimKeepsMine(w: World, name: string, owner: nat)
    requires name !in w.owners
    ensures forall u, h :: Mine(w, u, h) ==> Mine(w.(owners := w.owners[name := owner]), u, h)
  {
    var w' := w.(owners := w.owners[name := owner]);
    forall u, h | Mine(w, u, h)
      ensures Mine(w', u, h)
    {
      var a :| a in w.owners && w.owners[a] == u && Fqdn(w.root, a) == h;
      assert a in w'.owners && w'.owners[a] == u && Fqdn(w'.root, a) == h;
    }
  }

  lemma SameOwnersSameMine(w: World, w': World)
    requires w.owners == w'.owners && w.root == w'.root
    ensures forall u, h :: Mine(w, u, h) <==> Mine(w', u, h)
  {
  }

  lemma ProcOwnsMore(w: World, w': World, p: Proc)
    requires ProcOwns(w, p)
    requires forall u, h :: Mine(w, u, h) ==> Mine(w', u, h)
    ensures ProcOwns(w', p)
  {
  }

  lemma StepOwnsRoutes(w: World, s: nat, names: seq<string>, fails: bool, exempt: bool)
    requires Owned(w) && s in w.procs
    ensures var w' := Step(w, s, w.procs[s], names, fails, exempt);
            forall h :: h in w'.routes ==> Mine(w, w'.routes[h].user, h)
  {
    var p := w.procs[s];
    if p.Binding? && p.i < |p.names| && p.names[p.i] in w.owners && w.owners[p.names[p.i]] == p.user {
      assert Mine(w, p.user, Fqdn(w.root, p.names[p.i]));
    }
  }

  lemma StepOwnsUsers(w: World, s: nat, names: seq<string>, fails: bool, exempt: bool)
    requires Owned(w) && s in w.procs
    ensures var w' := Step(w, s, w.procs[s], names, fails, exempt);
            forall u :: u in w'.users ==> w'.users[u].user == u && AllMine(w, u, w'.users[u].domains)
  {
    assert ProcOwns(w, w.procs[s]);
  }

  lemma StepOwnsProc(w: World, s: nat, names: seq<string>, fails: bool, exempt: bool)
    requires Owned(w) && s in w.procs
    ensures var w' := Step(w, s, w.procs[s], names, fails, exempt);
            && w'.procs.Keys == w.procs.Keys
            && ProcOwns(w, w'.procs[s]) && w'.procs[s].user == w.procs[s].user
            && forall t :: t in w.procs && t != s ==> w'.procs[t] == w.procs[t]
  {
    var p := w.procs[s];
    assert ProcOwns(w, p);
    if p.Binding? && p.i < |p.names| && p.names[p.i] in w.owners && w.owners[p.names[p.i]] == p.user {
      assert Mine(w, p.user, Fqdn(w.root, p.names[p.i]));
    }
  }

  lemma StepKeepsOwned(w: World, s: nat, names: seq<string>, fails: bool, exempt: bool)
    requires Owned(w) && s in w.procs
    ensures Owned(Step(w, s, w.procs[s], names, fails, exempt))
  {
    var w' := Step(w, s, w.procs[s], names, fails, exempt);
    SameOwnersSameMine(w, w');
    StepOwnsRoutes(w, s, names, fails, exempt);
    StepOwnsUsers(w, s, names, fails, exempt);
    StepOwnsProc(w, s, names, fails, exempt);
    forall t | t in w'.procs
      ensures ProcOwns(w', w'.procs[t])
    {
      ProcOwnsMore(w, w', w'.procs[t]);
    }
  }

  lemma NextKeepsOwned(w: World, e: Event)
    requires Owned(w) && Enabled(w, e)
    ensures Owned(Next(w, e))
  {
    match e
    case Act(s, names, fails, exempt) => StepKeepsOwned(w, s, names, fails, exempt);
    case Claim(name, user) => ClaimKeepsMine(w, name, user);
    case Connect(_, _, _) => SameOwnersSameMine(w, Next(w, e));
    case Close(_) => SameOwnersSameMine(w, Next(w, e));
  }

  /** In every interleaving, each route's hostname is that of a domain owned by the entry's user. */
  lemma {:induction false} RoutesBelongToOwners(root: string, es: seq<Event>)
    requires IsRun(root, es)
    ensures Owned(After(root, es))
  {
    if es != [] {
      RoutesBelongToOwners(root, es[..|es| - 1]);
      NextKeepsOwned(After(root, es[..|es| - 1]), es[|es| - 1]);
    }
  }

  ghost predicate SameRoute(w: World, w': World, h: string) {
    (h in w.routes <==> h in w'.routes) && (h in w.routes ==> w.routes[h] == w'.routes[h])
  }

  /** A step of user `u` leaves every hostname that is not `u`'s exactly as it was. */
  lemma StepTouchesOwnHosts(w: World, s: nat, names: seq<string>, fails: bool, exempt: bool, h: string)
    requires Owned(w) && s in w.procs && !Mine(w, w.procs[s].user, h)
    ensures SameRoute(w, Step(w, s, w.procs[s], names, fails, exempt), h)
  {
    var p := w.procs[s];
    assert ProcOwns(w, p);
    if p.Binding? && p.i < |p.names| && p.names[p.i] in w.owners && w.owners[p.names[p.i]] == p.user {
      assert Mine(w, p.user, Fqdn(w.root, p.names[p.i]));
    }
  }

  /**
   Non-interference. In every interleaving of handshakes, takeovers and late cleanups, no step of one user
   adds, changes or removes a hostname that belongs to another.
   */
  lemma NonInterference(root: string, es: seq<Event>, e: Event, v: nat, h: string)
    requires IsRun(root, es) && Enabled(After(root, es), e)
    requires Mine(After(root, es), v, h)
    requires e.Act? ==> After(root, es).procs[e.session].user != v
    ensures SameRoute(After(root, es), Next(After(root, es), e), h)
  {
    var w := After(root, es);
    RoutesBelongToOwners(root, es);
    if e.Act? {
      if Mine(w, w.procs[e.session].user, h) {
        MineUnique(w, w.procs[e.session].user, v, h);
      }
      StepTouchesOwnHosts(w, e.session, e.names, e.fails, e.exempt, h);
    }
  }
}
