/**
 When the two registries agree about a user: the entry holds a session and its domains exactly when the
 user's routes are those domains, all to that session.
 */
module Agreement {
  import opened ControlPlane
  import opened Options
  import opened Registries

  /** The user's routes are exactly `domains`, all to session `s`. */
  ghost predicate RoutesAre(routes: Routes, u: nat, s: nat, domains: seq<string>) {
    forall h ::
      && (h in domains <==> h in routes && routes[h].user == u)
      && (h in domains ==> routes[h].session == s)
  }

  /** The user's routes are among `domains` from position `i` on, all to session `s`. */
  ghost predicate RoutesWithin(routes: Routes, u: nat, s: nat, domains: seq<string>, i: nat)
    requires i <= |domains|
  {
    forall h :: h in routes && routes[h].user == u ==>
      routes[h].session == s && h in domains && h !in domains[..i]
  }

  ghost predicate NoRoutes(routes: Routes, u: nat) {
    forall h :: h in routes ==> routes[h].user != u
  }

  ghost predicate Agree(routes: Routes, users: Users, u: nat) {
    if u in users then RoutesAre(routes, u, users[u].session, users[u].domains) else NoRoutes(routes, u)
  }

  // ---- orderly runs ----

  predicate BeforeBinding(p: Proc) {
    p.Authenticated? || p.Evicting? || p.Closing? || p.Dropping? || p.Requesting?
  }

  predicate Binds(p: Proc) { p.Binding? || p.Registering? }

  /** Past the check for an existing session, and not connected yet. */
  predicate Engaged(p: Proc) { (BeforeBinding(p) && !p.Authenticated?) || Binds(p) }

  /** Nothing of the connection is registered, and it has not been let in. */
  predicate Idle(p: Proc) { p.Authenticated? || p.Finished? }

  predicate Evicts(p: Proc) { p.Evicting? || p.Closing? || p.Dropping? }

  ghost predicate Of(w: World, t: nat, u: nat) { t in w.procs && w.procs[t].user == u }

  /**
   What is asked of the connections of user `u`, and of no other user's. One that passes the check for an
   existing session does so while no other one is engaged; and one that begins to bind does so when no
   cleanup of a closed session is pending.
   */
  ghost predicate Orderly(w: World, e: Event, u: nat) {
    e.Act? && Of(w, e.session, u) ==>
      && (w.procs[e.session].Authenticated? && Passes(w, w.procs[e.session]) ==>
            forall t :: Of(w, t, u) && t != e.session ==> !Engaged(w.procs[t]))
      && (w.procs[e.session].Requesting? ==>
            forall t :: Of(w, t, u) && t in w.closed ==> !w.procs[t].Monitoring? && !w.procs[t].Cleaning?)
  }

  predicate Passes(w: World, p: Proc)
    requires p.Authenticated?
  {
    p.user !in w.users || p.force
  }

  ghost predicate IsOrderlyRun(root: string, es: seq<Event>, u: nat)
    requires IsRun(root, es)
  {
    forall n :: 0 <= n < |es| ==> IsRun(root, es[..n]) && Orderly(After(root, es[..n]), es[n], u)
  }

  // ---- the invariant of one user ----

  /** What is known of connection `t` of user `u`, given how far it has come. */
  ghost predicate ProcOk(w: World, u: nat, t: nat, p: Proc) {
    match p
    case Evicting(_, previous, i) =>
      && i <= |previous.domains| && RoutesWithin(w.routes, u, previous.session, previous.domains, i)
      && (u in w.users ==> w.users[u] == previous)
    case Closing(_, previous) => NoRoutes(w.routes, u) && (u in w.users ==> w.users[u] == previous)
    case Dropping(_, previous) =>
      NoRoutes(w.routes, u) && (u in w.users ==> w.users[u] == previous) && previous.session in w.closed
    case Requesting(_) => u !in w.users
    case Binding(_, _, _, bound) => u !in w.users && RoutesAre(w.routes, u, t, bound) && OthersIdle(w, u, t)
    case Registering(_, bound) => u !in w.users && RoutesAre(w.routes, u, t, bound) && OthersIdle(w, u, t) && bound != []
    case Monitoring(_, bound) => u !in w.users ==> t in w.closed
    case Cleaning(_, bound, i) =>
      t in w.closed && i <= |bound| && (u in w.users ==> RoutesWithin(w.routes, u, t, bound, i))
    case _ => true
  }

  ghost predicate OthersIdle(w: World, u: nat, s: nat) {
    forall t :: Of(w, t, u) && t != s ==> Idle(w.procs[t])
  }

  ghost predicate ProcsOk(w: World, u: nat) {
    forall t :: Of(w, t, u) ==> ProcOk(w, u, t, w.procs[t])
  }

  ghost predicate NoOverlap(w: World, u: nat) {
    forall s, t :: Of(w, s, u) && Of(w, t, u) && Engaged(w.procs[s]) && Engaged(w.procs[t]) ==> s == t
  }

  /** The entry is that of a connection that waits or cleans up, next to which only a handshake may run. */
  ghost predicate EntryOk(w: World, u: nat) {
    u in w.users ==>
      var m, domains := w.users[u].session, w.users[u].domains;
      && Of(w, m, u) && domains != []
      && (w.procs[m] == Monitoring(u, domains) || (w.procs[m].Cleaning? && w.procs[m].bound == domains))
      && (forall t :: Of(w, t, u) && t != m ==> w.procs[t].Finished? || (BeforeBinding(w.procs[t]) && !w.procs[t].Requesting?))
      && RoutesWithin(w.routes, u, m, domains, 0)
      && (w.procs[m].Monitoring? && (forall t :: Of(w, t, u) ==> !Evicts(w.procs[t])) ==> RoutesAre(w.routes, u, m, domains))
  }

  ghost predicate NoEntryOk(w: World, u: nat) {
    u !in w.users && (forall t :: Of(w, t, u) ==> !Binds(w.procs[t])) ==> NoRoutes(w.routes, u)
  }

  ghost predicate Inv(w: World, u: nat) {
    ProcsOk(w, u) && NoOverlap(w, u) && EntryOk(w, u) && NoEntryOk(w, u)
  }

  /** Everything the invariant of `u` looks at is the same in both worlds. */
  ghost predicate SameFor(w: World, w': World, u: nat) {
    && (forall h :: (h in w.routes && w.routes[h].user == u) <==> (h in w'.routes && w'.routes[h].user == u))
    && (forall h :: h in w.routes && w.routes[h].user == u ==> w'.routes[h] == w.routes[h])
    && (u in w.users <==> u in w'.users) && (u in w.users ==> w'.users[u] == w.users[u])
    && (forall t :: Of(w, t, u) <==> Of(w', t, u))
    && (forall t :: Of(w, t, u) ==> w'.procs[t] == w.procs[t])
    && w.closed <= w'.closed
  }

  lemma SameForKeepsProcOk(w: World, w': World, u: nat, t: nat)
    requires SameFor(w, w', u) && Of(w, t, u) && ProcOk(w, u, t, w.procs[t])
    ensures ProcOk(w', u, t, w'.procs[t])
  {
  }

  lemma SameForKeepsInv(w: World, w': World, u: nat)
    requires SameFor(w, w', u) && Inv(w, u)
    ensures Inv(w', u)
  {
    forall t | Of(w', t, u)
      ensures ProcOk(w', u, t, w'.procs[t])
    {
      SameForKeepsProcOk(w, w', u, t);
    }
    assert NoOverlap(w', u);
  }

  lemma StepLeavesOtherEntries(w: World, s: nat, names: seq<string>, fails: bool, exempt: bool, u: nat)
    requires s in w.procs && w.procs[s].user != u
    ensures var w' := Step(w, s, w.procs[s], names, fails, exempt);
            && (u in w.users <==> u in w'.users) && (u in w.users ==> w'.users[u] == w.users[u])
            && w.closed <= w'.closed && w'.owners == w.owners && w'.root == w.root
  {
  }

  lemma StepLeavesOtherRoutes(w: World, s: nat, names: seq<string>, fails: bool, exempt: bool, u: nat, h: string)
    requires Owned(w) && s in w.procs && w.procs[s].user != u && Mine(w, u, h)
    ensures SameRoute(w, Step(w, s, w.procs[s], names, fails, exempt), h)
  {
    if Mine(w, w.procs[s].user, h) {
      MineUnique(w, u, w.procs[s].user, h);
    }
    StepTouchesOwnHosts(w, s, names, fails, exempt, h);
  }

  /** Steps of other users do not reach anything the invariant of `u` looks at. */
  lemma OthersLeaveUAlone(w: World, s: nat, names: seq<string>, fails: bool, exempt: bool, u: nat)
    requires Owned(w) && s in w.procs && w.procs[s].user != u
    ensures SameFor(w, Step(w, s, w.procs[s], names, fails, exempt), u)
  {
    var w' := Step(w, s, w.procs[s], names, fails, exempt);
    StepKeepsOwned(w, s, names, fails, exempt);
    StepOwnsProc(w, s, names, fails, exempt);
    StepLeavesOtherEntries(w, s, names, fails, exempt, u);
    SameOwnersSameMine(w, w');
    forall h | (h in w.routes && w.routes[h].user == u) || (h in w'.routes && w'.routes[h].user == u)
      ensures SameRoute(w, w', h)
    {
      assert Mine(w, u, h);
      StepLeavesOtherRoutes(w, s, names, fails, exempt, u, h);
    }
    SameForFromParts(w, w', u);
  }

  lemma SameForFromParts(w: World, w': World, u: nat)
    requires forall h :: (h in w.routes && w.routes[h].user == u) || (h in w'.routes && w'.routes[h].user == u) ==> SameRoute(w, w', h)
    requires (u in w.users <==> u in w'.users) && (u in w.users ==> w'.users[u] == w.users[u])
    requires w'.procs.Keys == w.procs.Keys && w.closed <= w'.closed
    requires forall t :: t in w.procs ==> w'.procs[t].user == w.procs[t].user && (w.procs[t].user == u ==> w'.procs[t] == w.procs[t])
    ensures SameFor(w, w', u)
  {
  }

  // ---- steps of the user's own connections ----

  /** Of the user's connections only `s` moves. */
  ghost predicate OnlyMoves(w: World, w': World, u: nat, s: nat) {
    && Of(w, s, u) && Of(w', s, u)
    && (forall t :: Of(w, t, u) <==> Of(w', t, u))
    && (forall t :: Of(w, t, u) && t != s ==> w'.procs[t] == w.procs[t])
  }

  /** The user's routes are among those it had. */
  ghost predicate Shrinks(routes: Routes, routes': Routes, u: nat) {
    forall h :: h in routes' && routes'[h].user == u ==> h in routes && routes[h] == routes'[h]
  }

  lemma StepOnlyMoves(w: World, s: nat, names: seq<string>, fails: bool, exempt: bool)
    requires s in w.procs
    ensures var w' := Step(w, s, w.procs[s], names, fails, exempt);
            && OnlyMoves(w, w', w.procs[s].user, s)
            && w'.procs[s] == NextProc(w, s, w.procs[s], names, fails, exempt)
            && (Engaged(w'.procs[s]) ==> Engaged(w.procs[s]) || w.procs[s].Authenticated?)
  {
    var p' := NextProc(w, s, w.procs[s], names, fails, exempt);
    var w' := Step(w, s, w.procs[s], names, fails, exempt);
    assert p'.user == w.procs[s].user;
    assert w'.procs == w.procs[s := p'];
  }

  lemma NoOverlapKept(w: World, w': World, u: nat, s: nat)
    requires NoOverlap(w, u) && OnlyMoves(w, w', u, s)
    requires Engaged(w'.procs[s]) ==> Engaged(w.procs[s])
    ensures NoOverlap(w', u)
  {
    forall x, y | Of(w', x, u) && Of(w', y, u) && Engaged(w'.procs[x]) && Engaged(w'.procs[y])
      ensures x == y
    {
      assert Of(w, x, u) && Of(w, y, u);
    }
  }

  /** Next to a connection that still moves, no other one binds. */
  lemma OthersDoNotBind(w: World, u: nat, s: nat, t: nat)
    requires ProcsOk(w, u) && Of(w, s, u) && Of(w, t, u) && s != t && !Idle(w.procs[s])
    ensures !Binds(w.procs[t])
  {
    assert ProcOk(w, u, t, w.procs[t]);
  }

  lemma OthersDoNotBindNow(w: World, u: nat, s: nat)
    requires ProcsOk(w, u) && Of(w, s, u)
    requires !Idle(w.procs[s]) || forall t :: Of(w, t, u) && t != s ==> !Engaged(w.procs[t])
    ensures forall t :: Of(w, t, u) && t != s ==> !Binds(w.procs[t])
  {
    forall t | Of(w, t, u) && t != s && !Idle(w.procs[s])
      ensures !Binds(w.procs[t])
    {
      OthersDoNotBind(w, u, s, t);
    }
  }

  /** Routes and the entry may go and sessions may close without hurting the other connections. */
  lemma OtherProcKept(w: World, w': World, u: nat, t: nat, p: Proc)
    requires ProcOk(w, u, t, p) && !Binds(p)
    requires Shrinks(w.routes, w'.routes, u) && w.closed <= w'.closed
    requires u in w'.users ==> u in w.users && w'.users[u] == w.users[u]
    requires p.Monitoring? && u !in w'.users ==> t in w'.closed
    ensures ProcOk(w', u, t, p)
  {
  }

  lemma ProcsKept(w: World, w': World, u: nat, s: nat)
    requires ProcsOk(w, u) && OnlyMoves(w, w', u, s)
    requires forall t :: Of(w, t, u) && t != s ==> !Binds(w.procs[t])
    requires Shrinks(w.routes, w'.routes, u) && w.closed <= w'.closed
    requires u in w'.users ==> u in w.users && w'.users[u] == w.users[u]
    requires forall t :: Of(w, t, u) && t != s && w.procs[t].Monitoring? && u !in w'.users ==> t in w'.closed
    requires ProcOk(w', u, s, w'.procs[s])
    ensures ProcsOk(w', u)
  {
    forall t | Of(w', t, u)
      ensures ProcOk(w', u, t, w'.procs[t])
    {
      if t != s {
        assert Of(w, t, u);
        OtherProcKept(w, w', u, t, w.procs[t]);
      }
    }
  }

  /** The handshake steps before binding that leave the user's entry and routes alone. */
  lemma EarlyStep(w: World, w': World, u: nat, s: nat)
    requires Inv(w, u) && OnlyMoves(w, w', u, s) && w.routes == w'.routes && w.closed <= w'.closed && w'.users == w.users
    requires (Engaged(w.procs[s]) && !Binds(w.procs[s])) || w.procs[s].Authenticated?
    requires w.procs[s].Authenticated? ==> forall t :: Of(w, t, u) && t != s ==> !Engaged(w.procs[t])
    requires w'.procs[s].Finished? || (BeforeBinding(w'.procs[s]) && (w'.procs[s].Requesting? ==> u !in w.users))
    requires Evicts(w.procs[s]) ==> Evicts(w'.procs[s])
    requires ProcOk(w', u, s, w'.procs[s])
    ensures Inv(w', u)
  {
    OthersDoNotBindNow(w, u, s);
    ProcsKept(w, w', u, s) by {
      forall t | Of(w, t, u) && w.procs[t].Monitoring? && u !in w.users
        ensures t in w.closed
      {
        assert ProcOk(w, u, t, w.procs[t]);
      }
    }
    assert NoOverlap(w', u);
    assert EntryOk(w', u);
    assert NoEntryOk(w', u);
  }

  /** A connection that does not pass the check just ends. */
  lemma RejectStep(w: World, w': World, u: nat, s: nat)
    requires Inv(w, u) && OnlyMoves(w, w', u, s) && w.routes == w'.routes && w.closed <= w'.closed && w'.users == w.users
    requires w.procs[s].Authenticated? && w'.procs[s].Finished?
    ensures Inv(w', u)
  {
    forall t | Of(w', t, u)
      ensures ProcOk(w', u, t, w'.procs[t])
    {
      if t != s {
        assert Of(w, t, u) && ProcOk(w, u, t, w.procs[t]);
      }
    }
    NoOverlapKept(w, w', u, s);
    assert EntryOk(w', u);
    assert NoEntryOk(w', u);
  }

  /** Removing a hostname from the routes, while evicting or cleaning up. */
  lemma RemovalStep(w: World, w': World, u: nat, s: nat, h: string)
    requires Inv(w, u) && OnlyMoves(w, w', u, s)
    requires w'.routes == w.routes - {h} && w'.closed == w.closed && w'.users == w.users
    requires (Evicts(w.procs[s]) && Evicts(w'.procs[s]))
          || (w.procs[s].Cleaning? && w'.procs[s].Cleaning? && w'.procs[s].bound == w.procs[s].bound)
    requires ProcOk(w', u, s, w'.procs[s])
    ensures Inv(w', u)
  {
    assert Shrinks(w.routes, w'.routes, u);
    OthersDoNotBindNow(w, u, s);
    ProcsKept(w, w', u, s) by {
      forall t | Of(w, t, u) && w.procs[t].Monitoring? && u !in w.users
        ensures t in w.closed
      {
        assert ProcOk(w, u, t, w.procs[t]);
      }
    }
    NoOverlapKept(w, w', u, s);
    if u in w.users {
      var m := w.users[u].session;
      assert w'.procs[m].Monitoring? ==> Evicts(w'.procs[s]) || m != s;
      assert w.procs[s].Cleaning? ==> s == m;
      assert EntryOk(w', u);
    }
    assert NoEntryOk(w', u);
  }

  /** Removing the user's entry, at the end of an eviction or a cleanup: no route is left then. */
  lemma EntryRemovalStep(w: World, w': World, u: nat, s: nat)
    requires Inv(w, u) && OnlyMoves(w, w', u, s)
    requires w'.routes == w.routes && w'.closed == w.closed && w'.users == w.users - {u}
    requires (w.procs[s].Dropping? && w'.procs[s].Requesting?)
          || (w.procs[s].Cleaning? && w.procs[s].i == |w.procs[s].bound| && w'.procs[s].Finished?)
    ensures Inv(w', u)
  {
    assert ProcOk(w, u, s, w.procs[s]);
    NoOverlapKept(w, w', u, s);
    forall t | Of(w, t, u) && t != s && w.procs[t].Monitoring?
      ensures t in w.closed
    {
      assert ProcOk(w, u, t, w.procs[t]);
      if u in w.users {
        assert t == w.users[u].session;
      }
    }
    OthersDoNotBindNow(w, u, s);
    ProcsKept(w, w', u, s);
    if w.procs[s].Cleaning? {
      var bound := w.procs[s].bound;
      assert bound[..|bound|] == bound;
      if u in w.users {
        assert s == w.users[u].session;
        assert NoRoutes(w.routes, u);
      } else {
        assert NoRoutes(w.routes, u);
      }
    }
    assert NoEntryOk(w', u);
  }

  /** Going on to bind: nothing of the user's is registered, and all its other connections are idle. */
  lemma RequestStep(w: World, w': World, u: nat, s: nat)
    requires Inv(w, u) && OnlyMoves(w, w', u, s)
    requires w'.routes == w.routes && w'.closed == w.closed && w'.users == w.users
    requires w.procs[s].Requesting? && w'.procs[s].Binding? && w'.procs[s].bound == []
    requires forall t :: Of(w, t, u) && t in w.closed ==> !w.procs[t].Monitoring? && !w.procs[t].Cleaning?
    ensures Inv(w', u)
  {
    assert ProcOk(w, u, s, w.procs[s]);
    forall t | Of(w, t, u) && t != s
      ensures Idle(w.procs[t])
    {
      assert ProcOk(w, u, t, w.procs[t]);
      OthersDoNotBind(w, u, s, t);
    }
    assert forall t :: Of(w, t, u) ==> !Binds(w.procs[t]);
    assert NoRoutes(w.routes, u);
    OnlyOneKeepsInv(w', u, s) by {
      assert ProcOk(w', u, s, w'.procs[s]);
    }
  }

  /** With one connection left, the invariant is about that one and the entry. */
  lemma OnlyOneKeepsInv(w: World, u: nat, s: nat)
    requires Of(w, s, u) && OthersIdle(w, u, s) && ProcOk(w, u, s, w.procs[s])
    requires EntryOk(w, u) && NoEntryOk(w, u)
    ensures Inv(w, u)
  {
    forall t | Of(w, t, u)
      ensures ProcOk(w, u, t, w.procs[t])
    {
    }
  }

  /** Binding one name, or being done with binding. */
  lemma BindStep(w: World, w': World, u: nat, s: nat)
    requires Inv(w, u) && OnlyMoves(w, w', u, s) && w.procs[s].Binding?
    requires w'.users == w.users && w.closed <= w'.closed
    requires w'.procs[s].Binding? || (w'.procs[s].Registering? && w'.procs[s].bound != []) ==>
               RoutesAre(w'.routes, u, s, w'.procs[s].bound)
    requires w'.procs[s].Binding? || (w'.procs[s].Registering? && w'.procs[s].bound != [])
          || (w'.procs[s].Finished? && w'.routes == w.routes && w.procs[s].bound == [])
    ensures Inv(w', u)
  {
    assert ProcOk(w, u, s, w.procs[s]);
    assert OthersIdle(w', u, s);
    OnlyOneKeepsInv(w', u, s) by {
      assert ProcOk(w', u, s, w'.procs[s]);
    }
  }

  lemma RegisterStep(w: World, w': World, u: nat, s: nat)
    requires Inv(w, u) && OnlyMoves(w, w', u, s) && w.procs[s].Registering?
    requires w'.routes == w.routes && w'.closed == w.closed
    requires w'.users == w.users[u := UserSession(u, s, w.procs[s].bound)] && w'.procs[s] == Monitoring(u, w.procs[s].bound)
    ensures Inv(w', u)
  {
    assert ProcOk(w, u, s, w.procs[s]);
    assert OthersIdle(w', u, s);
    OnlyOneKeepsInv(w', u, s);
  }

  lemma CleanupStartStep(w: World, w': World, u: nat, s: nat)
    requires Inv(w, u) && OnlyMoves(w, w', u, s)
    requires w'.routes == w.routes && w'.closed == w.closed && w'.users == w.users && s in w.closed
    requires w.procs[s].Monitoring? && w'.procs[s] == Cleaning(u, w.procs[s].bound, 0)
    ensures Inv(w', u)
  {
    assert ProcOk(w, u, s, w.procs[s]);
    if u in w.users {
      assert s == w.users[u].session;
    }
    NoOverlapKept(w, w', u, s);
    OthersDoNotBindNow(w, u, s);
    ProcsKept(w, w', u, s) by {
      forall t | Of(w, t, u) && w.procs[t].Monitoring? && u !in w.users
        ensures t in w.closed
      {
        assert ProcOk(w, u, t, w.procs[t]);
      }
    }
    assert EntryOk(w', u);
    assert NoEntryOk(w', u);
  }

  // ---- every step ----

  lemma EvictionStep(w: World, s: nat, names: seq<string>, fails: bool, exempt: bool)
    requires s in w.procs && w.procs[s].Evicting? && Inv(w, w.procs[s].user)
    ensures Inv(Step(w, s, w.procs[s], names, fails, exempt), w.procs[s].user)
  {
    var u, domains, i := w.procs[s].user, w.procs[s].previous.domains, w.procs[s].i;
    var w' := Step(w, s, w.procs[s], names, fails, exempt);
    StepOnlyMoves(w, s, names, fails, exempt);
    assert Of(w, s, u) && ProcOk(w, u, s, w.procs[s]);
    if i < |domains| {
      assert domains[..i + 1] == domains[..i] + [domains[i]];
      RemovalStep(w, w', u, s, domains[i]);
    } else {
      assert domains[..i] == domains;
      EarlyStep(w, w', u, s);
    }
  }

  lemma CleanupStep(w: World, s: nat, names: seq<string>, fails: bool, exempt: bool)
    requires s in w.procs && w.procs[s].Cleaning? && Inv(w, w.procs[s].user)
    ensures Inv(Step(w, s, w.procs[s], names, fails, exempt), w.procs[s].user)
  {
    var u, bound, i := w.procs[s].user, w.procs[s].bound, w.procs[s].i;
    var w' := Step(w, s, w.procs[s], names, fails, exempt);
    StepOnlyMoves(w, s, names, fails, exempt);
    assert Of(w, s, u) && ProcOk(w, u, s, w.procs[s]);
    if i < |bound| {
      assert bound[..i + 1] == bound[..i] + [bound[i]];
      RemovalStep(w, w', u, s, bound[i]);
    } else {
      EntryRemovalStep(w, w', u, s);
    }
  }

  lemma RequestingStep(w: World, s: nat, names: seq<string>, fails: bool, exempt: bool)
    requires s in w.procs && w.procs[s].Requesting? && Inv(w, w.procs[s].user)
    requires Orderly(w, Act(s, names, fails, exempt), w.procs[s].user)
    ensures Inv(Step(w, s, w.procs[s], names, fails, exempt), w.procs[s].user)
  {
    var u := w.procs[s].user;
    var w' := Step(w, s, w.procs[s], names, fails, exempt);
    StepOnlyMoves(w, s, names, fails, exempt);
    assert Of(w, s, u) && ProcOk(w, u, s, w.procs[s]);
    if fails {
      EarlyStep(w, w', u, s);
    } else {
      RequestStep(w, w', u, s);
    }
  }

  lemma BindingStep(w: World, s: nat, names: seq<string>, fails: bool, exempt: bool)
    requires s in w.procs && w.procs[s].Binding? && Inv(w, w.procs[s].user)
    ensures Inv(Step(w, s, w.procs[s], names, fails, exempt), w.procs[s].user)
  {
    var u := w.procs[s].user;
    StepOnlyMoves(w, s, names, fails, exempt);
    assert Of(w, s, u) && ProcOk(w, u, s, w.procs[s]);
    BindStep(w, Step(w, s, w.procs[s], names, fails, exempt), u, s);
  }

  lemma ActKeepsInv(w: World, s: nat, names: seq<string>, fails: bool, exempt: bool)
    requires s in w.procs && Inv(w, w.procs[s].user)
    requires Enabled(w, Act(s, names, fails, exempt)) && Orderly(w, Act(s, names, fails, exempt), w.procs[s].user)
    ensures Inv(Step(w, s, w.procs[s], names, fails, exempt), w.procs[s].user)
  {
    var p := w.procs[s];
    var u := p.user;
    var w' := Step(w, s, p, names, fails, exempt);
    StepOnlyMoves(w, s, names, fails, exempt);
    assert Of(w, s, u);
    assert ProcOk(w, u, s, p);
    match p
    case Authenticated(_, _) =>
      if Passes(w, p) {
        EarlyStep(w, w', u, s);
      } else {
        RejectStep(w, w', u, s);
      }
    case Evicting(_, _, _) => EvictionStep(w, s, names, fails, exempt);
    case Closing(_, _) => EarlyStep(w, w', u, s);
    case Dropping(_, _) => EntryRemovalStep(w, w', u, s);
    case Requesting(_) => RequestingStep(w, s, names, fails, exempt);
    case Binding(_, _, _, _) => BindingStep(w, s, names, fails, exempt);
    case Registering(_, _) => RegisterStep(w, w', u, s);
    case Monitoring(_, _) => CleanupStartStep(w, w', u, s);
    case Cleaning(_, _, _) => CleanupStep(w, s, names, fails, exempt);
    case Finished(_) =>
  }

  lemma ConnectKeepsInv(w: World, s: nat, u: nat, force: bool)
    requires Inv(w, u) && s !in w.procs
    ensures Inv(w.(procs := w.procs[s := Authenticated(u, force)]), u)
  {
    var w' := w.(procs := w.procs[s := Authenticated(u, force)]);
    forall t | Of(w', t, u)
      ensures t == s || (Of(w, t, u) && w'.procs[t] == w.procs[t])
    {
    }
    forall t | Of(w', t, u)
      ensures ProcOk(w', u, t, w'.procs[t])
    {
      if t != s {
        assert Of(w, t, u);
        assert ProcOk(w, u, t, w.procs[t]);
      }
    }
    assert forall t :: Of(w, t, u) ==> Of(w', t, u) && w'.procs[t] == w.procs[t];
    assert NoOverlap(w', u);
    assert EntryOk(w', u);
    assert NoEntryOk(w', u) by {
      if u !in w.users && forall t :: Of(w', t, u) ==> !Binds(w'.procs[t]) {
        assert forall t :: Of(w, t, u) ==> !Binds(w.procs[t]);
      }
    }
  }

  lemma NextKeepsInv(w: World, e: Event, u: nat)
    requires Owned(w) && Inv(w, u) && Enabled(w, e) && Orderly(w, e, u)
    ensures Inv(Next(w, e), u)
  {
    match e
    case Connect(s, v, force) =>
      if v == u {
        ConnectKeepsInv(w, s, u, force);
      } else {
        assert SameFor(w, Next(w, e), u);
        SameForKeepsInv(w, Next(w, e), u);
      }
    case Claim(_, _) =>
      assert SameFor(w, Next(w, e), u);
      SameForKeepsInv(w, Next(w, e), u);
    case Close(_) =>
      assert SameFor(w, Next(w, e), u);
      SameForKeepsInv(w, Next(w, e), u);
    case Act(s, names, fails, exempt) =>
      if w.procs[s].user == u {
        ActKeepsInv(w, s, names, fails, exempt);
      } else {
        OthersLeaveUAlone(w, s, names, fails, exempt, u);
        SameForKeepsInv(w, Next(w, e), u);
      }
  }

  lemma {:induction false} OrderlyRunKeepsInv(root: string, es: seq<Event>, u: nat)
    requires IsRun(root, es) && IsOrderlyRun(root, es, u)
    ensures Inv(After(root, es), u)
  {
    if es != [] {
      var n := |es| - 1;
      assert forall m :: 0 <= m < n ==> es[..n][..m] == es[..m];
      OrderlyRunKeepsInv(root, es[..n], u);
      RoutesBelongToOwners(root, es[..n]);
      NextKeepsInv(After(root, es[..n]), es[n], u);
    }
  }

  /** No handshake and no cleanup of the user is under way. */
  ghost predicate AtRest(w: World, u: nat) {
    forall t :: Of(w, t, u) ==> w.procs[t].Monitoring? || w.procs[t].Finished?
  }

  /**
   Registry agreement. In a run that is orderly as far as the user is concerned, whatever other users do:
   whenever nothing of the user's is under way, the user's entry holds a session and domains exactly when
   the user's routes are those domains, all to that session.
   */
  lemma RegistriesAgree(root: string, es: seq<Event>, u: nat)
    requires IsRun(root, es) && IsOrderlyRun(root, es, u) && AtRest(After(root, es), u)
    ensures var w := After(root, es);
            && Agree(w.routes, w.users, u)
            && (u in w.users ==> w.users[u].domains != [])
            && (u in w.users <==> exists h :: h in w.routes && w.routes[h].user == u)
  {
    OrderlyRunKeepsInv(root, es, u);
    var w := After(root, es);
    if u in w.users {
      var h := w.users[u].domains[0];
      assert h in w.users[u].domains;
      assert h in w.routes && w.routes[h].user == u;
    }
  }

  /** One active session a user: in such a run, no two connections wait on open sessions, and the entry is theirs. */
  lemma OneSessionPerUser(root: string, es: seq<Event>, u: nat, s: nat, t: nat)
    requires IsRun(root, es) && IsOrderlyRun(root, es, u)
    requires var w := After(root, es);
             && Of(w, s, u) && w.procs[s].Monitoring? && s !in w.closed
             && Of(w, t, u) && w.procs[t].Monitoring? && t !in w.closed
    ensures var w := After(root, es); s == t && u in w.users && w.users[u].session == s
  {
    OrderlyRunKeepsInv(root, es, u);
    var w := After(root, es);
    assert ProcOk(w, u, s, w.procs[s]) && ProcOk(w, u, t, w.procs[t]);
  }

  // ---- without other steps in between ----

  /** All of the user's routes and domains belong to the user, as `RoutesBelongToOwners` shows. */
  ghost predicate OwnRoutes(owners: map<string, nat>, root: string, routes: Routes) {
    forall h, name :: h in routes && name in owners && h == Fqdn(root, name) ==> routes[h].user == owners[name]
  }

  /** Binding for a user without routes leaves the user with those bound, and no other. */
  lemma BindingIntoNone(owners: map<string, nat>, root: string, session: nat, user: nat, exempt: bool,
                        routes: Routes, names: seq<string>, dbErrors: seq<bool>)
    requires |names| == |dbErrors| && NoRoutes(routes, user)
    ensures var (r, bound) := BindFirst(owners, root, session, user, exempt, routes, names, dbErrors, |names|);
            RoutesAre(r, user, session, bound) && (bound == [] ==> NoRoutes(r, user))
  {
    var (r, bound) := BindFirst(owners, root, session, user, exempt, routes, names, dbErrors, |names|);
    BindFirstBinds(owners, root, session, user, exempt, routes, names, dbErrors, |names|);
    forall h
      ensures h in bound <==> h in r && r[h].user == user
      ensures h in bound ==> r[h].session == session
    {
    }
  }

  lemma EvictedHasNone(c: Control, user: nat)
    requires Agree(c.routes, c.users, user)
    ensures NoRoutes(Evict(c, user).routes, user)
  {
  }

  /** An undisturbed handshake keeps the agreement; if it connects, the user's entry is the new session. */
  lemma HandshakeKeepsAgreement(owners: map<string, nat>, root: string, c: Control, session: nat, user: nat, force: bool,
                                names: Option<seq<string>>, dbErrors: seq<bool>, exempt: bool)
    requires names.Some? ==> |names.value| == |dbErrors|
    requires Agree(c.routes, c.users, user) && OwnRoutes(owners, root, c.routes)
    ensures var (c', reply) := Handshake(owners, root, c, session, user, force, names, dbErrors, exempt);
            && Agree(c'.routes, c'.users, user)
            && (reply.Connected? ==> user in c'.users && c'.users[user] == UserSession(user, session, reply.domains))
            && (!reply.Connected? ==> session in c'.closed)
            && (user in c.users && force ==> c.users[user].session in c'.closed)
  {
    if user !in c.users || force {
      EvictedHasNone(c, user);
      if names.Some? {
        BindingIntoNone(owners, root, session, user, exempt, Evict(c, user).routes, names.value, dbErrors);
      }
    }
  }
}
