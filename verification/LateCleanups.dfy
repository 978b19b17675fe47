/**
 The cleanup of a replaced session that comes late, when a successor of the same user has begun to bind.
 */
module LateCleanups {
  import opened Agreement
  import opened ControlPlane
  import opened Options
  import opened Registries

  /**
   What a late cleanup of domains `stale` does. It cannot tell whose registrations it removes, so in any
   state it is harmless exactly when the user has no entry and none of the domains is bound by then. Where
   the registries agree, they still do afterwards exactly when the entry's domains are all among `stale`.
   */
  lemma LateCleanup(c: Control, u: nat, stale: seq<string>)
    ensures CleanedUp(c, u, stale) == c <==> u !in c.users && forall h :: h in stale ==> h !in c.routes
    ensures Agree(c.routes, c.users, u) ==>
              var c' := CleanedUp(c, u, stale);
              (Agree(c'.routes, c'.users, u) <==> (u in c.users ==> forall h :: h in c.users[u].domains ==> h in stale))
  {
    var c' := CleanedUp(c, u, stale);
    if u !in c.users {
      if h :| h in stale && h in c.routes {
        assert h !in c'.routes;
      } else {
        assert c'.routes == c.routes && c'.users == c.users;
      }
    } else {
      assert u !in c'.users;
      if h :| h in c.users[u].domains && h !in stale && Agree(c.routes, c.users, u) {
        assert h in c'.routes && c'.routes[h].user == u;
      }
    }
  }

  /** The user's routes are those to session `s` under the hosts of `bound` that are not `stale` and of `hosts`. */
  ghost predicate RoutesLeft(routes: Routes, u: nat, s: nat, bound: seq<string>, stale: seq<string>, hosts: seq<string>) {
    && (forall h :: h in routes && routes[h].user == u <==> h in hosts || (h in bound && h !in stale))
    && (forall h :: h in routes && routes[h].user == u ==> routes[h].session == s)
  }

  lemma BindingAfterCleanup(owners: map<string, nat>, root: string, c: Control, s: nat, u: nat, exempt: bool,
                            bound: seq<string>, more: seq<string>, dbErrors: seq<bool>, stale: seq<string>)
    requires RoutesAre(c.routes, u, s, bound) && |more| == |dbErrors|
    ensures var (r, hosts) := BindFirst(owners, root, s, u, exempt, CleanedUp(c, u, stale).routes, more, dbErrors, |more|);
            RoutesLeft(r, u, s, bound, stale, hosts)
  {
    var cleaned := CleanedUp(c, u, stale).routes;
    assert forall h :: h in cleaned <==> h in c.routes && h !in stale;
    BindFirstBinds(owners, root, s, u, exempt, cleaned, more, dbErrors, |more|);
  }

  lemma RoutesLeftAgree(routes: Routes, u: nat, s: nat, bound: seq<string>, stale: seq<string>, hosts: seq<string>)
    requires RoutesLeft(routes, u, s, bound, stale, hosts)
    ensures RoutesAre(routes, u, s, bound + hosts) <==> forall h :: h in bound && h in stale ==> h in hosts
    ensures NoRoutes(routes, u) <==> hosts == [] && forall h :: h in bound ==> h in stale
  {
    if h :| h in bound && h in stale && h !in hosts {
      assert h in bound + hosts;
    }
    if hosts != [] {
      assert hosts[0] in hosts;
    }
  }

  /**
   The same while the successor is binding. It has bound `bound`, binds `more` after the cleanup and then
   registers: its routes are those it registers exactly when it binds again whatever the cleanup took from
   it. If the entry goes only after that, the two agree exactly when no route is left either.
   */
  lemma LateCleanupWhileBinding(owners: map<string, nat>, root: string, c: Control, s: nat, u: nat, exempt: bool,
                                bound: seq<string>, more: seq<string>, dbErrors: seq<bool>, stale: seq<string>)
    requires u !in c.users && RoutesAre(c.routes, u, s, bound) && |more| == |dbErrors|
    ensures var (r, hosts) := BindFirst(owners, root, s, u, exempt, CleanedUp(c, u, stale).routes, more, dbErrors, |more|);
            && (Agree(r, c.users[u := UserSession(u, s, bound + hosts)], u) <==>
                  forall h :: h in bound && h in stale ==> h in hosts)
            && (Agree(r, c.users, u) <==> hosts == [] && forall h :: h in bound ==> h in stale)
  {
    var (r, hosts) := BindFirst(owners, root, s, u, exempt, CleanedUp(c, u, stale).routes, more, dbErrors, |more|);
    BindingAfterCleanup(owners, root, c, s, u, exempt, bound, more, dbErrors, stale);
    RoutesLeftAgree(r, u, s, bound, stale, hosts);
  }

  /** What a binding successor and a late cleanup do to the routes, one access each. */
  datatype Access = Bind(host: string) | Remove(host: string)

  function Accessed(routes: Routes, entry: TunnelEntry, accesses: seq<Access>): Routes {
    if accesses == [] then routes
    else
      var before := Accessed(routes, entry, accesses[..|accesses| - 1]);
      match accesses[|accesses| - 1]
      case Bind(h) => before[h := entry]
      case Remove(h) => before - {h}
  }

  /** The hosts bound, in order, as the successor registers them. */
  function BoundBy(accesses: seq<Access>): seq<string> {
    if accesses == [] then []
    else
      var last := accesses[|accesses| - 1];
      BoundBy(accesses[..|accesses| - 1]) + if last.Bind? then [last.host] else []
  }

  /** The host is bound at some point and not removed after it. */
  ghost predicate StaysBound(accesses: seq<Access>, h: string) {
    exists k :: 0 <= k < |accesses| && accesses[k] == Bind(h) && forall i :: k < i < |accesses| ==> accesses[i] != Remove(h)
  }

  lemma StaysBoundOneMore(accesses: seq<Access>, last: Access, h: string)
    ensures StaysBound(accesses + [last], h) <==> last == Bind(h) || (StaysBound(accesses, h) && last != Remove(h))
  {
    var all := accesses + [last];
    assert all[|accesses|] == last && forall k :: 0 <= k < |accesses| ==> all[k] == accesses[k];
    if StaysBound(accesses, h) && last != Remove(h) {
      var k :| 0 <= k < |accesses| && accesses[k] == Bind(h) && forall i :: k < i < |accesses| ==> accesses[i] != Remove(h);
      assert all[k] == Bind(h);
    }
  }

  lemma {:induction false} AccessedIffStaysBound(routes: Routes, entry: TunnelEntry, accesses: seq<Access>, h: string)
    requires NoRoutes(routes, entry.user)
    ensures var r := Accessed(routes, entry, accesses);
            && (h in r && r[h].user == entry.user <==> StaysBound(accesses, h))
            && (h in r && r[h].user == entry.user ==> r[h] == entry)
  {
    if accesses != [] {
      var n := |accesses| - 1;
      assert accesses == accesses[..n] + [accesses[n]];
      AccessedIffStaysBound(routes, entry, accesses[..n], h);
      StaysBoundOneMore(accesses[..n], accesses[n], h);
    }
  }

  lemma {:induction false} BoundByBinds(accesses: seq<Access>, h: string)
    ensures h in BoundBy(accesses) <==> Bind(h) in accesses
  {
    if accesses != [] {
      var n := |accesses| - 1;
      assert accesses == accesses[..n] + [accesses[n]];
      BoundByBinds(accesses[..n], h);
    }
  }

  /**
   In general, with the removals anywhere between the bindings: once the successor has registered, whatever
   it bound must have stayed bound; and once the entry has gone, the last access of a cleanup, nothing may.
   */
  lemma LateCleanupInterleaved(c: Control, entry: TunnelEntry, accesses: seq<Access>)
    requires NoRoutes(c.routes, entry.user)
    ensures var u := entry.user; var r := Accessed(c.routes, entry, accesses);
            Agree(r, c.users - {u}, u) <==> (forall h :: Bind(h) in accesses ==> !StaysBound(accesses, h))
    ensures var u := entry.user; var r := Accessed(c.routes, entry, accesses);
            Agree(r, c.users[u := UserSession(u, entry.session, BoundBy(accesses))], u) <==>
              (forall h :: Bind(h) in accesses ==> StaysBound(accesses, h))
  {
    var r := Accessed(c.routes, entry, accesses);
    forall h
      ensures h in r && r[h].user == entry.user <==> StaysBound(accesses, h)
      ensures h in r && r[h].user == entry.user ==> r[h] == entry
      ensures h in BoundBy(accesses) <==> Bind(h) in accesses
      ensures StaysBound(accesses, h) ==> Bind(h) in accesses
    {
      AccessedIffStaysBound(c.routes, entry, accesses, h);
      BoundByBinds(accesses, h);
    }
  }

  // ---- the steps of a run are such accesses ----

  /** What a step does to the routes of user `u`. */
  ghost function AccessOf(w: World, e: Event, u: nat): (accesses: seq<Access>)
    ensures |accesses| <= 1
  {
    if !(e.Act? && Of(w, e.session, u)) then []
    else
      match w.procs[e.session]
      case Binding(_, names, i, _) =>
        if i < |names| && !e.fails && names[i] in w.owners && w.owners[names[i]] == u then [Bind(Fqdn(w.root, names[i]))] else []
      case Evicting(_, previous, i) => if i < |previous.domains| then [Remove(previous.domains[i])] else []
      case Cleaning(_, bound, i) => if i < |bound| then [Remove(bound[i])] else []
      case _ => []
  }

  /** The routes of one user. */
  function RoutesOf(routes: Routes, u: nat): Routes {
    map h | h in routes && routes[h].user == u :: routes[h]
  }

  /** Of the user's connections only `s` binds, and always with the same exemption. */
  ghost predicate OnlyBinds(w: World, e: Event, u: nat, s: nat, exempt: bool) {
    e.Act? && Of(w, e.session, u) && w.procs[e.session].Binding? ==> e.session == s && e.exempt == exempt
  }

  lemma OneAccess(routes: Routes, entry: TunnelEntry, access: Access)
    ensures Accessed(routes, entry, []) == routes
    ensures Accessed(routes, entry, [access])
         == match access { case Bind(h) => routes[h := entry] case Remove(h) => routes - {h} }
  {
    assert [access][..0] == [];
  }

  lemma RoutesOfBound(routes: Routes, h: string, entry: TunnelEntry)
    ensures RoutesOf(routes[h := entry], entry.user) == RoutesOf(routes, entry.user)[h := entry]
  {
  }

  lemma RoutesOfRemoved(routes: Routes, h: string, u: nat)
    ensures RoutesOf(routes - {h}, u) == RoutesOf(routes, u) - {h}
  {
  }

  lemma OwnStepIsAccess(w: World, e: Event, u: nat, s: nat, exempt: bool)
    requires Enabled(w, e) && OnlyBinds(w, e, u, s, exempt) && e.Act? && Of(w, e.session, u)
    ensures RoutesOf(Next(w, e).routes, u) == Accessed(RoutesOf(w.routes, u), TunnelEntry(s, u, exempt), AccessOf(w, e, u))
  {
    var accesses, entry := AccessOf(w, e, u), TunnelEntry(s, u, exempt);
    if accesses == [] {
      assert Next(w, e).routes == w.routes;
    } else {
      OneAccess(RoutesOf(w.routes, u), entry, accesses[0]);
      assert accesses == [accesses[0]];
      RoutesOfBound(w.routes, accesses[0].host, entry);
      RoutesOfRemoved(w.routes, accesses[0].host, u);
    }
  }

  lemma SameForSameRoutes(w: World, w': World, u: nat)
    requires SameFor(w, w', u)
    ensures RoutesOf(w'.routes, u) == RoutesOf(w.routes, u)
  {
  }

  lemma StepIsAccess(w: World, e: Event, u: nat, s: nat, exempt: bool)
    requires Owned(w) && Enabled(w, e) && OnlyBinds(w, e, u, s, exempt)
    ensures RoutesOf(Next(w, e).routes, u) == Accessed(RoutesOf(w.routes, u), TunnelEntry(s, u, exempt), AccessOf(w, e, u))
  {
    match e
    case Act(x, names, fails, ex) =>
      if Of(w, x, u) {
        OwnStepIsAccess(w, e, u, s, exempt);
      } else {
        OthersLeaveUAlone(w, x, names, fails, ex, u);
        SameForSameRoutes(w, Next(w, e), u);
      }
    case _ =>
  }

  ghost predicate IsRunFrom(w: World, es: seq<Event>)
    decreases |es|, 0
  {
    es == [] || (IsRunFrom(w, es[..|es| - 1]) && Enabled(AfterFrom(w, es[..|es| - 1]), es[|es| - 1]))
  }

  ghost function AfterFrom(w: World, es: seq<Event>): World
    requires IsRunFrom(w, es)
    decreases |es|, 1
  {
    if es == [] then w else Next(AfterFrom(w, es[..|es| - 1]), es[|es| - 1])
  }

  ghost function AccessesFrom(w: World, es: seq<Event>, u: nat): seq<Access>
    requires IsRunFrom(w, es)
  {
    if es == [] then []
    else AccessesFrom(w, es[..|es| - 1], u) + AccessOf(AfterFrom(w, es[..|es| - 1]), es[|es| - 1], u)
  }

  ghost predicate OnlyBindsIn(w: World, es: seq<Event>, u: nat, s: nat, exempt: bool)
    requires IsRunFrom(w, es)
  {
    es == [] || (OnlyBindsIn(w, es[..|es| - 1], u, s, exempt)
                 && OnlyBinds(AfterFrom(w, es[..|es| - 1]), es[|es| - 1], u, s, exempt))
  }

  lemma AccessedConcat(routes: Routes, entry: TunnelEntry, first: seq<Access>, second: seq<Access>)
    requires |second| <= 1
    ensures Accessed(routes, entry, first + second) == Accessed(Accessed(routes, entry, first), entry, second)
    ensures BoundBy(first + second) == BoundBy(first) + BoundBy(second)
  {
    if second == [] {
      assert first + second == first;
    } else {
      assert (first + second)[..|first|] == first && second[..0] == [];
    }
  }

  lemma {:induction false} OwnedFrom(w: World, es: seq<Event>)
    requires Owned(w) && IsRunFrom(w, es)
    ensures Owned(AfterFrom(w, es))
  {
    if es != [] {
      OwnedFrom(w, es[..|es| - 1]);
      NextKeepsOwned(AfterFrom(w, es[..|es| - 1]), es[|es| - 1]);
    }
  }

  lemma StepAfterAccesses(v: World, e: Event, u: nat, s: nat, exempt: bool, routes: Routes, first: seq<Access>)
    requires Owned(v) && Enabled(v, e) && OnlyBinds(v, e, u, s, exempt)
    requires RoutesOf(v.routes, u) == Accessed(routes, TunnelEntry(s, u, exempt), first)
    ensures RoutesOf(Next(v, e).routes, u) == Accessed(routes, TunnelEntry(s, u, exempt), first + AccessOf(v, e, u))
  {
    StepIsAccess(v, e, u, s, exempt);
    AccessedConcat(routes, TunnelEntry(s, u, exempt), first, AccessOf(v, e, u));
  }

  /** Over a run in which only `s` binds, the user's routes are what these accesses make of them. */
  lemma {:induction false} RunIsAccesses(w: World, es: seq<Event>, u: nat, s: nat, exempt: bool)
    requires Owned(w) && IsRunFrom(w, es) && OnlyBindsIn(w, es, u, s, exempt)
    ensures RoutesOf(AfterFrom(w, es).routes, u)
         == Accessed(RoutesOf(w.routes, u), TunnelEntry(s, u, exempt), AccessesFrom(w, es, u))
  {
    if es != [] {
      var n := |es| - 1;
      RunIsAccesses(w, es[..n], u, s, exempt);
      OwnedFrom(w, es[..n]);
      StepAfterAccesses(AfterFrom(w, es[..n]), es[n], u, s, exempt, RoutesOf(w.routes, u), AccessesFrom(w, es[..n], u));
    }
  }

  /** From the request on; while it binds, the connection has bound exactly `bound`. */
  ghost predicate HasBound(w: World, s: nat, u: nat, bound: seq<string>) {
    && Of(w, s, u) && !BeforeBinding(w.procs[s])
    && (w.procs[s].Binding? || w.procs[s].Registering? ==> w.procs[s].bound == bound)
  }

  lemma StepBinds(w: World, e: Event, u: nat, s: nat, exempt: bool, bound: seq<string>)
    requires Enabled(w, e) && OnlyBinds(w, e, u, s, exempt) && HasBound(w, s, u, bound)
    ensures HasBound(Next(w, e), s, u, bound + BoundBy(AccessOf(w, e, u)))
  {
    var accesses := AccessOf(w, e, u);
    if accesses != [] {
      assert accesses[..0] == [];
    }
  }

  lemma BoundByConcat(bound: seq<string>, first: seq<Access>, second: seq<Access>)
    requires |second| <= 1
    ensures bound + BoundBy(first + second) == bound + BoundBy(first) + BoundBy(second)
  {
    AccessedConcat(map[], TunnelEntry(0, 0, false), first, second);
  }

  lemma StepAfterBinds(v: World, e: Event, u: nat, s: nat, exempt: bool, bound: seq<string>, first: seq<Access>)
    requires Enabled(v, e) && OnlyBinds(v, e, u, s, exempt) && HasBound(v, s, u, bound + BoundBy(first))
    ensures HasBound(Next(v, e), s, u, bound + BoundBy(first + AccessOf(v, e, u)))
  {
    StepBinds(v, e, u, s, exempt, bound + BoundBy(first));
    BoundByConcat(bound, first, AccessOf(v, e, u));
  }

  lemma {:induction false} RunBinds(w: World, es: seq<Event>, u: nat, s: nat, exempt: bool, bound: seq<string>)
    requires IsRunFrom(w, es) && OnlyBindsIn(w, es, u, s, exempt) && HasBound(w, s, u, bound)
    ensures HasBound(AfterFrom(w, es), s, u, bound + BoundBy(AccessesFrom(w, es, u)))
  {
    if es == [] {
      assert bound + [] == bound;
    } else {
      var n := |es| - 1;
      RunBinds(w, es[..n], u, s, exempt, bound);
      StepAfterBinds(AfterFrom(w, es[..n]), es[n], u, s, exempt, bound, AccessesFrom(w, es[..n], u));
    }
  }

  lemma AgreementIsOfOwnRoutes(routes: Routes, users: Users, u: nat)
    ensures Agree(RoutesOf(routes, u), users, u) <==> Agree(routes, users, u)
  {
    var own := RoutesOf(routes, u);
    assert forall h :: h in own && own[h].user == u <==> h in routes && routes[h].user == u;
    if u in users {
      if RoutesAre(own, u, users[u].session, users[u].domains) {
        assert forall h :: h in users[u].domains ==> h in own && own[h] == routes[h];
      }
      if RoutesAre(routes, u, users[u].session, users[u].domains) {
        assert forall h :: h in users[u].domains ==> h in own && own[h] == routes[h];
      }
    }
  }

  /**
   The exact condition on runs. A connection begins to bind when its user has no route, and no other one of
   the user binds until it is about to register; anything else, cleanups in particular, may happen. When it
   registers, the registries agree if and only if no host it bound was removed after its last binding; and
   were the entry to go after that, if and only if every host was.
   */
  lemma LateCleanupInRuns(w: World, es: seq<Event>, u: nat, s: nat, exempt: bool, bound: seq<string>)
    requires Owned(w) && NoRoutes(w.routes, u) && HasBound(w, s, u, []) && w.procs[s].Binding?
    requires IsRunFrom(w, es) && OnlyBindsIn(w, es, u, s, exempt)
    requires s in AfterFrom(w, es).procs && AfterFrom(w, es).procs[s] == Registering(u, bound)
    ensures var v, accesses := AfterFrom(w, es), AccessesFrom(w, es, u);
            var v' := Step(v, s, v.procs[s], [], false, exempt);
            && bound == BoundBy(accesses)
            && (Agree(v'.routes, v'.users, u) <==> forall h :: Bind(h) in accesses ==> StaysBound(accesses, h))
            && (Agree(v'.routes, v'.users - {u}, u) <==> forall h :: Bind(h) in accesses ==> !StaysBound(accesses, h))
  {
    var v, accesses := AfterFrom(w, es), AccessesFrom(w, es, u);
    var entry := TunnelEntry(s, u, exempt);
    RunBinds(w, es, u, s, exempt, []);
    assert [] + BoundBy(accesses) == BoundBy(accesses);
    RunIsAccesses(w, es, u, s, exempt);
    assert RoutesOf(w.routes, u) == map[];
    var c := Control(map[], v.users, v.closed);
    LateCleanupInterleaved(c, entry, accesses);
    AgreementIsOfOwnRoutes(v.routes, v.users[u := UserSession(u, s, bound)], u);
    AgreementIsOfOwnRoutes(v.routes, v.users - {u}, u);
    assert v.users[u := UserSession(u, s, bound)] - {u} == v.users - {u};
  }
}
