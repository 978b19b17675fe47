/**
 The runs in which the registries come to disagree. Both conditions of an orderly run are needed: from
 every reachable world that breaks one of them some continuation ends in disagreement.
 */
module Disagreement {
  import opened Agreement
  import opened ControlPlane
  import opened LateCleanups
  import opened Options
  import opened Registries
  import U = Undisturbed

  ghost predicate Reachable(w: World) {
    exists es :: IsRun(w.root, es) && After(w.root, es) == w
  }

  /** Every step keeps `r`, which stands for being reachable. */
  ghost predicate Kept(r: World -> bool) {
    forall w, e :: r(w) && Enabled(w, e) ==> r(Next(w, e))
  }

  lemma Onward(r: World -> bool, w: World, e: Event, w': World)
    requires Kept(r) && r(w) && Enabled(w, e) && Next(w, e) == w'
    ensures r(w')
  {
  }

  lemma ReachableIsKept()
    ensures Kept((w: World) => Reachable(w))
  {
    forall w: World, e | Reachable(w) && Enabled(w, e)
      ensures Reachable(Next(w, e))
    {
      var es :| IsRun(w.root, es) && After(w.root, es) == w;
      assert (es + [e])[..|es|] == es;
      assert IsRun(w.root, es + [e]);
      StepKeepsRoot(w, e);
    }
  }

  lemma StepKeepsRoot(w: World, e: Event)
    requires Enabled(w, e)
    ensures Next(w, e).root == w.root
  {
  }

  lemma StartIsReachable(root: string)
    ensures Reachable(Start(root))
  {
    assert IsRun(root, []) && After(root, []) == Start(root);
  }

  // ---- what two connections of one user can come to ----

  lemma KeptFollows(r: World -> bool, s: nat, input: U.Input)
    requires Kept(r)
    ensures U.Follows(r, s, input)
  {
    forall w: World, w' | r(w) && U.Moves(w, w', s, input)
      ensures r(w')
    {
      assert Enabled(w, U.Move(s, w.procs[s], input));
    }
  }

  /** The world in which connection `t` stands at `p`. */
  function With(w: World, t: nat, p: Proc): World { w.(procs := w.procs[t := p]) }

  /** Either of two connections may be the one that moves. */
  lemma Swap(w: World, s: nat, t: nat, c: Control, ps: Proc, pt: Proc)
    requires s != t
    ensures U.At(With(w, t, pt), s, c, ps) == U.At(With(w, s, ps), t, c, pt)
  {
    assert w.procs[t := pt][s := ps] == w.procs[s := ps][t := pt];
  }

  ghost predicate Owns(w: World, u: nat, name: string) { name in w.owners && w.owners[name] == u }

  const NOTHING: U.Input := U.Input(None, [], false)

  /** A request for one domain of the user, up to the registration. */
  lemma Requests(r: World -> bool, b: World, s: nat, c: Control, u: nat, name: string)
    requires Kept(r) && Owns(b, u, name) && r(U.At(b, s, c, Requesting(u)))
    ensures var h := Fqdn(b.root, name);
            r(U.At(b, s, c.(routes := c.routes[h := TunnelEntry(s, u, false)]), Registering(u, [h])))
  {
    var input := U.Input(Some([name]), [false], false);
    var h := Fqdn(b.root, name);
    var c' := c.(routes := c.routes[h := TunnelEntry(s, u, false)]);
    KeptFollows(r, s, input);
    U.Onward(r, b, s, input, c, Requesting(u), c, Binding(u, [name], 0, []));
    U.BindingLeads(b, s, input, c, u, 0, []);
    assert [] + [h] == [h];
    U.Onward(r, b, s, input, c, Binding(u, [name], 0, []), c', Binding(u, [name], 1, [h]));
    U.BoundLeads(b, s, input, c', u, [name], [h]);
    U.Onward(r, b, s, input, c', Binding(u, [name], 1, [h]), c', Registering(u, [h]));
  }

  function Registered(c: Control, s: nat, u: nat, bound: seq<string>): Control {
    c.(users := c.users[u := UserSession(u, s, bound)])
  }

  lemma Registers(r: World -> bool, b: World, s: nat, c: Control, u: nat, bound: seq<string>)
    requires Kept(r) && r(U.At(b, s, c, Registering(u, bound)))
    ensures r(U.At(b, s, Registered(c, s, u, bound), Monitoring(u, bound)))
  {
    KeptFollows(r, s, NOTHING);
    U.RegisteringLeads(b, s, NOTHING, c, u, bound);
    U.Onward(r, b, s, NOTHING, c, Registering(u, bound), Registered(c, s, u, bound), Monitoring(u, bound));
  }

  /** A connection that passes the check comes to its request, taking over an existing session on the way. */
  lemma PassesToRequest(r: World -> bool, b: World, s: nat, c: Control, u: nat, force: bool) returns (c': Control)
    requires Kept(r) && r(U.At(b, s, c, Authenticated(u, force))) && (u !in c.users || force)
    ensures r(U.At(b, s, c', Requesting(u)))
  {
    KeptFollows(r, s, NOTHING);
    if u !in c.users {
      c' := c;
      U.Onward(r, b, s, NOTHING, c, Authenticated(u, force), c, Requesting(u));
    } else {
      c' := Evict(c, u);
      U.Onward(r, b, s, NOTHING, c, Authenticated(u, force), c, Evicting(u, c.users[u], 0));
      U.TakeoverEvicts(r, b, s, NOTHING, c, u);
    }
  }

  /** A connection that is taking over a session comes to its request. */
  lemma EvictsToRequest(r: World -> bool, b: World, t: nat, c: Control, p: Proc) returns (c': Control)
    requires Kept(r) && Evicts(p) && r(U.At(b, t, c, p))
    ensures r(U.At(b, t, c', Requesting(p.user)))
    decreases if p.Evicting? then 2 else if p.Closing? then 1 else 0
  {
    KeptFollows(r, t, NOTHING);
    match p
    case Evicting(u, previous, i) =>
      var c1 := c;
      if i <= |previous.domains| {
        U.EvictsAll(r, b, t, NOTHING, c, u, previous, i);
        c1 := c.(routes := c.routes - ToSet(previous.domains[i..]));
      } else {
        U.Onward(r, b, t, NOTHING, c, p, c, Closing(u, previous));
      }
      c' := EvictsToRequest(r, b, t, c1, Closing(u, previous));
    case Closing(u, previous) =>
      var c1 := c.(closed := c.closed + {previous.session});
      U.Onward(r, b, t, NOTHING, c, p, c1, Dropping(u, previous));
      c' := EvictsToRequest(r, b, t, c1, Dropping(u, previous));
    case Dropping(u, previous) =>
      c' := c.(users := c.users - {u});
      U.Onward(r, b, t, NOTHING, c, p, c', Requesting(u));
  }

  /** The names from `i` to `j` cannot be checked. */
  lemma {:induction false} Skips(r: World -> bool, b: World, t: nat, c: Control, u: nat, names: seq<string>, i: nat, j: nat,
                                 bound: seq<string>)
    requires Kept(r) && i <= j <= |names| && r(U.At(b, t, c, Binding(u, names, i, bound)))
    ensures r(U.At(b, t, c, Binding(u, names, j, bound)))
    decreases j - i
  {
    if i < j {
      var w, w' := U.At(b, t, c, Binding(u, names, i, bound)), U.At(b, t, c, Binding(u, names, i + 1, bound));
      Onward(r, w, Act(t, [], true, false), w');
      Skips(r, b, t, c, u, names, i + 1, j, bound);
    }
  }

  /** A connection that has bound something registers it, whatever else it was asked for. */
  lemma BoundToRegistering(r: World -> bool, b: World, t: nat, c: Control, u: nat, names: seq<string>, i: nat, bound: seq<string>)
    requires Kept(r) && bound != [] && r(U.At(b, t, c, Binding(u, names, i, bound)))
    ensures r(U.At(b, t, c, Registering(u, bound)))
  {
    var n := if i < |names| then |names| else i;
    if i < |names| {
      Skips(r, b, t, c, u, names, i, |names|, bound);
    }
    var w, w' := U.At(b, t, c, Binding(u, names, n, bound)), U.At(b, t, c, Registering(u, bound));
    Onward(r, w, Act(t, [], false, false), w');
  }

  /** One of the names still to bind is the user's. */
  lemma OwnedToRegistering(r: World -> bool, b: World, t: nat, c: Control, u: nat, names: seq<string>, i: nat, j: nat)
    returns (c': Control, bound: seq<string>)
    requires Kept(r) && i <= j < |names| && Owns(b, u, names[j]) && r(U.At(b, t, c, Binding(u, names, i, [])))
    ensures r(U.At(b, t, c', Registering(u, bound)))
  {
    var h := Fqdn(b.root, names[j]);
    bound := [h];
    c' := c.(routes := c.routes[h := TunnelEntry(t, u, false)]);
    Skips(r, b, t, c, u, names, i, j, []);
    assert [] + [h] == [h];
    var w, w' := U.At(b, t, c, Binding(u, names, j, [])), U.At(b, t, c', Binding(u, names, j + 1, [h]));
    Onward(r, w, Act(t, [], false, false), w');
    BoundToRegistering(r, b, t, c', u, names, j + 1, [h]);
  }

  /** The end of it: one connection has registered, and the domain that the other one bound is still its own. */
  lemma RegisteringDisagrees(r: World -> bool, b: World, s: nat, t: nat, c: Control, u: nat, name: string, bound: seq<string>)
    returns (w': World)
    requires Kept(r) && s != t && Owns(b, u, name)
    requires r(U.At(With(b, t, Registering(u, bound)), s, c, Requesting(u)))
    ensures r(w') && !Agree(w'.routes, w'.users, u)
    ensures exists domains :: w' == U.At(With(b, t, Monitoring(u, bound)), s, Control(w'.routes, w'.users, w'.closed), Monitoring(u, domains))
  {
    var h := Fqdn(b.root, name);
    var wt := With(b, t, Registering(u, bound));
    Requests(r, wt, s, c, u, name);
    var c1 := c.(routes := c.routes[h := TunnelEntry(s, u, false)]);
    Registers(r, wt, s, c1, u, [h]);
    var c2 := Registered(c1, s, u, [h]);
    Swap(b, s, t, c2, Monitoring(u, [h]), Registering(u, bound));
    Registers(r, With(b, s, Monitoring(u, [h])), t, c2, u, bound);
    var c3 := Registered(c2, t, u, bound);
    Swap(b, s, t, c3, Monitoring(u, [h]), Monitoring(u, bound));
    w' := U.At(With(b, t, Monitoring(u, bound)), s, c3, Monitoring(u, [h]));
    assert w'.users[u] == UserSession(u, t, bound) && w'.routes[h] == TunnelEntry(s, u, false);
    assert w'.routes[h].user == u && w'.routes[h].session != t;
  }

  /** The connection has bound something or may still do so: a name it was asked for is the user's, or nobody's. */
  ghost predicate MayBind(w: World, u: nat, p: Proc) {
    p.Binding? ==>
      p.bound != [] || exists j :: p.i <= j < |p.names| && (p.names[j] !in w.owners || Owns(w, u, p.names[j]))
  }

  /** An engaged connection that may bind comes to its registration; a name may be claimed on the way. */
  lemma EngagedToRegistering(r: World -> bool, b: World, t: nat, c: Control, u: nat, p: Proc, name: string)
    returns (owners: map<string, nat>, c': Control, bound: seq<string>)
    requires Kept(r) && Engaged(p) && p.user == u && MayBind(b, u, p) && Owns(b, u, name) && r(U.At(b, t, c, p))
    ensures var b' := b.(owners := owners); Owns(b', u, name) && r(U.At(b', t, c', Registering(u, bound)))
  {
    owners := b.owners;
    if Evicts(p) || p.Requesting? {
      var c1 := c;
      if Evicts(p) {
        c1 := EvictsToRequest(r, b, t, c, p);
      }
      Requests(r, b, t, c1, u, name);
      bound := [Fqdn(b.root, name)];
      c' := c1.(routes := c1.routes[bound[0] := TunnelEntry(t, u, false)]);
    } else if p.Registering? {
      c', bound := c, p.bound;
    } else if p.bound != [] {
      c', bound := c, p.bound;
      BoundToRegistering(r, b, t, c, u, p.names, p.i, p.bound);
    } else {
      var j :| p.i <= j < |p.names| && (p.names[j] !in b.owners || Owns(b, u, p.names[j]));
      if p.names[j] !in b.owners {
        owners := b.owners[p.names[j] := u];
        Onward(r, U.At(b, t, c, p), Claim(p.names[j], u), U.At(b.(owners := owners), t, c, p));
      }
      c', bound := OwnedToRegistering(r, b.(owners := owners), t, c, u, p.names, p.i, j);
    }
  }

  /** The connection has been let in, or is about to be. */
  ghost predicate LetIn(w: World, p: Proc) { p.Requesting? || (p.Authenticated? && Passes(w, p)) }

  lemma OverlapDisagrees(r: World -> bool, w: World, u: nat, s: nat, t: nat, name: string) returns (w': World)
    requires Kept(r) && r(w) && s != t && Of(w, s, u) && Of(w, t, u) && Owns(w, u, name)
    requires LetIn(w, w.procs[s]) && Engaged(w.procs[t]) && MayBind(w, u, w.procs[t])
    ensures r(w') && !Agree(w'.routes, w'.users, u)
    ensures exists b, d :: w'.procs == w.procs[t := Monitoring(u, b)][s := Monitoring(u, d)]
  {
    var ps, pt, c := w.procs[s], w.procs[t], U.ControlOf(w);
    assert w == U.At(With(w, t, pt), s, c, ps) by { assert w.procs[t := pt][s := ps] == w.procs; }
    var c1 := c;
    if ps.Authenticated? {
      c1 := PassesToRequest(r, With(w, t, pt), s, c, u, ps.force);
    }
    Swap(w, s, t, c1, Requesting(u), pt);
    var owners, c2, bound := EngagedToRegistering(r, With(w, s, Requesting(u)), t, c1, u, pt, name);
    var w1 := w.(owners := owners);
    assert With(w, s, Requesting(u)).(owners := owners) == With(w1, s, Requesting(u));
    Swap(w1, s, t, c2, Requesting(u), Registering(u, bound));
    w' := RegisteringDisagrees(r, w1, s, t, c2, u, name, bound);
    var d :| w' == U.At(With(w1, t, Monitoring(u, bound)), s, Control(w'.routes, w'.users, w'.closed), Monitoring(u, d));
    assert w'.procs == w.procs[t := Monitoring(u, bound)][s := Monitoring(u, d)];
  }

  /** The other connections of the user are at rest. */
  ghost predicate OthersRest(w: World, u: nat, s: nat, t: nat) {
    forall x :: Of(w, x, u) && x != s && x != t ==> w.procs[x].Monitoring? || w.procs[x].Finished?
  }

  /**
   The first condition is needed. From every reachable world in which a connection of a user is let in while
   another one is engaged and may still bind, some continuation connects both and ends in disagreement, with
   nothing of the user's under way if nothing else was.
   */
  lemma OverlapLeadsToDisagreement(w: World, u: nat, s: nat, t: nat, name: string) returns (w': World)
    requires Reachable(w) && s != t && Of(w, s, u) && Of(w, t, u) && Owns(w, u, name)
    requires LetIn(w, w.procs[s]) && Engaged(w.procs[t]) && MayBind(w, u, w.procs[t])
    ensures Reachable(w') && !Agree(w'.routes, w'.users, u)
    ensures Of(w', s, u) && w'.procs[s].Monitoring? && Of(w', t, u) && w'.procs[t].Monitoring?
    ensures OthersRest(w, u, s, t) ==> AtRest(w', u)
  {
    ReachableIsKept();
    w' := OverlapDisagrees((v: World) => Reachable(v), w, u, s, t, name);
  }

  /**
   The exception: a connection that has bound nothing and may bind nothing stays so whatever anybody does,
   and none of its own steps changes a route or an entry; all that is left to it is to end.
   */
  lemma CannotBindIsHarmless(w: World, u: nat, t: nat, e: Event)
    requires Enabled(w, e) && Of(w, t, u) && w.procs[t].Binding? && !MayBind(w, u, w.procs[t])
    ensures var w' := Next(w, e);
            && Of(w', t, u) && (w'.procs[t].Finished? || (w'.procs[t].Binding? && !MayBind(w', u, w'.procs[t])))
            && (e.Act? && e.session == t ==> w'.routes == w.routes && w'.users == w.users)
  {
    var p, w' := w.procs[t], Next(w, e);
    assert p.bound == [] && forall j :: p.i <= j < |p.names| ==> p.names[j] in w.owners && w.owners[p.names[j]] != u;
    assert forall name :: name in w.owners ==> name in w'.owners && w'.owners[name] == w.owners[name];
  }

  // ---- a cleanup that is pending when a successor binds ----

  predicate Pending(p: Proc) { p.Monitoring? || p.Cleaning? }

  /** What a pending cleanup still has to remove. */
  function ToRemove(p: Proc): seq<string>
    requires Pending(p)
  {
    if p.Monitoring? then p.bound else if p.i <= |p.bound| then p.bound[p.i..] else []
  }

  lemma CleansUp(r: World -> bool, b: World, t: nat, c: Control, p: Proc)
    requires Kept(r) && Pending(p) && t in c.closed && r(U.At(b, t, c, p))
    ensures r(U.At(b, t, CleanedUp(c, p.user, ToRemove(p)), Finished(p.user)))
  {
    var u := p.user;
    KeptFollows(r, t, NOTHING);
    if p.Monitoring? {
      Onward(r, U.At(b, t, c, p), Act(t, [], false, false), U.At(b, t, c, Cleaning(u, p.bound, 0)));
      U.CleanupFollows(r, b, t, NOTHING, c, u, p.bound, 0);
      assert p.bound[0..] == p.bound;
    } else if p.i <= |p.bound| {
      U.CleanupFollows(r, b, t, NOTHING, c, u, p.bound, p.i);
    } else {
      assert c.routes - ToSet([]) == c.routes;
      Onward(r, U.At(b, t, c, p), Act(t, [], false, false), U.At(b, t, CleanedUp(c, u, []), Finished(u)));
    }
  }

  /** The successor binds a domain that the cleanup still has to remove, and registers it after the cleanup. */
  lemma CleanupTakesRoute(r: World -> bool, w: World, u: nat, s: nat, t: nat, c: Control, p: Proc, name: string) returns (c': Control)
    requires Kept(r) && s != t && Pending(p) && p.user == u && t in c.closed && Owns(w, u, name)
    requires Fqdn(w.root, name) in ToRemove(p) && r(U.At(With(w, t, p), s, c, Requesting(u)))
    ensures !Agree(c'.routes, c'.users, u) && c'.closed == c.closed
    ensures exists d :: r(U.At(With(w, t, Finished(u)), s, c', Monitoring(u, d)))
  {
    var h := Fqdn(w.root, name);
    Requests(r, With(w, t, p), s, c, u, name);
    var c1 := c.(routes := c.routes[h := TunnelEntry(s, u, false)]);
    Swap(w, s, t, c1, Registering(u, [h]), p);
    CleansUp(r, With(w, s, Registering(u, [h])), t, c1, p);
    var c2 := CleanedUp(c1, u, ToRemove(p));
    Swap(w, s, t, c2, Registering(u, [h]), Finished(u));
    Registers(r, With(w, t, Finished(u)), s, c2, u, [h]);
    c' := Registered(c2, s, u, [h]);
    assert h in ToSet(ToRemove(p)) && h !in c'.routes && h in [h];
  }

  /** Only the entry is left to remove, and that happens after the successor has registered its own. */
  lemma CleanupTakesEntry(r: World -> bool, w: World, u: nat, s: nat, t: nat, c: Control, p: Proc, name: string) returns (c': Control)
    requires Kept(r) && s != t && Pending(p) && p.user == u && t in c.closed && Owns(w, u, name)
    requires ToRemove(p) == [] && r(U.At(With(w, t, p), s, c, Requesting(u)))
    ensures !Agree(c'.routes, c'.users, u) && c'.closed == c.closed
    ensures exists d :: r(U.At(With(w, t, Finished(u)), s, c', Monitoring(u, d)))
  {
    var h := Fqdn(w.root, name);
    var wt := With(w, t, p);
    Requests(r, wt, s, c, u, name);
    var c1 := c.(routes := c.routes[h := TunnelEntry(s, u, false)]);
    Registers(r, wt, s, c1, u, [h]);
    var c2 := Registered(c1, s, u, [h]);
    Swap(w, s, t, c2, Monitoring(u, [h]), p);
    CleansUp(r, With(w, s, Monitoring(u, [h])), t, c2, p);
    c' := CleanedUp(c2, u, []);
    Swap(w, s, t, c', Monitoring(u, [h]), Finished(u));
    assert h in c'.routes && c'.routes[h].user == u && u !in c'.users;
  }

  /**
   The second condition is needed. From every reachable world in which a connection of a user is about to
   bind while the cleanup of a closed session of the user is pending, some continuation connects the one,
   finishes the other and ends in disagreement; the new session is as open as it was.
   */
  lemma PendingCleanupLeadsToDisagreement(w: World, u: nat, s: nat, t: nat, name: string) returns (w': World)
    requires Reachable(w) && s != t && Of(w, s, u) && Of(w, t, u) && Owns(w, u, name)
    requires w.procs[s].Requesting? && t in w.closed && Pending(w.procs[t])
    ensures Reachable(w') && !Agree(w'.routes, w'.users, u)
    ensures Of(w', s, u) && w'.procs[s].Monitoring? && Of(w', t, u) && w'.procs[t].Finished? && w'.closed == w.closed
    ensures OthersRest(w, u, s, t) ==> AtRest(w', u)
  {
    var r := (v: World) => Reachable(v);
    ReachableIsKept();
    var pt, c := w.procs[t], U.ControlOf(w);
    assert w == U.At(With(w, t, pt), s, c, Requesting(u)) by { assert w.procs[t := pt][s := Requesting(u)] == w.procs; }
    var c';
    if ToRemove(pt) == [] {
      c' := CleanupTakesEntry(r, w, u, s, t, c, pt, name);
    } else {
      var own := OwnedHost(w, u, t);
      c' := CleanupTakesRoute(r, w, u, s, t, c, pt, own);
    }
    var d :| r(U.At(With(w, t, Finished(u)), s, c', Monitoring(u, d)));
    w' := U.At(With(w, t, Finished(u)), s, c', Monitoring(u, d));
  }

  /** What a cleanup has to remove are hosts of domains of its user. */
  lemma OwnedHost(w: World, u: nat, t: nat) returns (name: string)
    requires Reachable(w) && Of(w, t, u) && Pending(w.procs[t]) && ToRemove(w.procs[t]) != []
    ensures Owns(w, u, name) && Fqdn(w.root, name) in ToRemove(w.procs[t])
  {
    var es :| IsRun(w.root, es) && After(w.root, es) == w;
    RoutesBelongToOwners(w.root, es);
    var p := w.procs[t];
    assert ProcOwns(w, p);
    var h := ToRemove(p)[0];
    assert h in p.bound;
    name :| name in w.owners && w.owners[name] == u && Fqdn(w.root, name) == h;
  }

  // ---- concrete runs ----

  function Go(session: nat, names: seq<string>): Event { Act(session, names, false, false) }

  const OWNERS: map<string, nat> := map["a" := 1, "b" := 1]

  /** User 1 owns the domains a and b and has session 10 open with domain a. */
  function FirstConnected(): World {
    World("", OWNERS, map["a" := TunnelEntry(10, 1, false)], map[1 := UserSession(1, 10, ["a"])], {},
          map[10 := Monitoring(1, ["a"])])
  }

  /** User 1 has claimed the domains a and b and is about to bind. */
  function FirstRequests(): World {
    World("", OWNERS, map[], map[], {}, map[10 := Requesting(1)])
  }

  lemma FirstSessionRequests(r: World -> bool)
    requires Kept(r) && r(Start(""))
    ensures r(FirstRequests())
  {
    var w0 := Start("");
    var w1 := World("", map["a" := 1], map[], map[], {}, map[]);
    Onward(r, w0, Claim("a", 1), w1);
    assert "a"[0] != "b"[0];
    var w2 := World("", OWNERS, map[], map[], {}, map[]);
    Onward(r, w1, Claim("b", 1), w2);
    var w3 := w2.(procs := map[10 := Authenticated(1, false)]);
    Onward(r, w2, Connect(10, 1, false), w3);
    Onward(r, w3, Go(10, []), FirstRequests());
  }

  lemma FirstSessionBindsA(r: World -> bool)
    requires Kept(r) && r(FirstRequests())
    ensures r(FirstConnected())
  {
    var w0 := FirstRequests();
    var w1 := w0.(procs := map[10 := Binding(1, ["a"], 0, [])]);
    Onward(r, w0, Go(10, ["a"]), w1);
    var w2 := w0.(routes := map["a" := TunnelEntry(10, 1, false)], procs := map[10 := Binding(1, ["a"], 1, ["a"])]);
    assert [] + ["a"] == ["a"];
    Onward(r, w1, Go(10, []), w2);
    var w3 := w2.(procs := map[10 := Registering(1, ["a"])]);
    Onward(r, w2, Go(10, []), w3);
    Onward(r, w3, Go(10, []), FirstConnected());
  }

  /** Session 11 of the same user is taking over by force and has removed the route of session 10. */
  function SecondEvicts(): World {
    World("", OWNERS, map[], map[1 := UserSession(1, 10, ["a"])], {},
          map[10 := Monitoring(1, ["a"]), 11 := Evicting(1, UserSession(1, 10, ["a"]), 1)])
  }

  lemma SecondSessionEvicts(r: World -> bool)
    requires Kept(r) && r(FirstConnected())
    ensures r(SecondEvicts())
  {
    var w0 := FirstConnected();
    var m := Monitoring(1, ["a"]);
    var w1 := w0.(procs := map[10 := m, 11 := Authenticated(1, true)]);
    Onward(r, w0, Connect(11, 1, true), w1);
    var w2 := w0.(procs := map[10 := m, 11 := Evicting(1, UserSession(1, 10, ["a"]), 0)]);
    Onward(r, w1, Go(11, []), w2);
    Onward(r, w2, Go(11, []), SecondEvicts());
  }

  /** Session 11 has closed session 10 and removed its entry, and is about to bind. */
  function SecondRequests(): World {
    World("", OWNERS, map[], map[], {10}, map[10 := Monitoring(1, ["a"]), 11 := Requesting(1)])
  }

  lemma SecondSessionTakesOver(r: World -> bool)
    requires Kept(r) && r(SecondEvicts())
    ensures r(SecondRequests())
  {
    var w0 := SecondEvicts();
    var previous := UserSession(1, 10, ["a"]);
    var m := Monitoring(1, ["a"]);
    var w1 := w0.(procs := map[10 := m, 11 := Closing(1, previous)]);
    Onward(r, w0, Go(11, []), w1);
    var w2 := w0.(closed := {10}, procs := map[10 := m, 11 := Dropping(1, previous)]);
    Onward(r, w1, Go(11, []), w2);
    Onward(r, w2, Go(11, []), SecondRequests());
  }

  /** Session 11 has bound the domains a and b. */
  function SecondBound(): World {
    World("", OWNERS, map["a" := TunnelEntry(11, 1, false), "b" := TunnelEntry(11, 1, false)], map[], {10},
          map[10 := Monitoring(1, ["a"]), 11 := Binding(1, ["a", "b"], 2, ["a", "b"])])
  }

  /** Session 11 is connected with the domains a and b; the cleanup of session 10 has not started. */
  function SecondConnected(): World {
    World("", OWNERS, map["a" := TunnelEntry(11, 1, false), "b" := TunnelEntry(11, 1, false)],
          map[1 := UserSession(1, 11, ["a", "b"])], {10},
          map[10 := Monitoring(1, ["a"]), 11 := Monitoring(1, ["a", "b"])])
  }

  lemma SecondSessionBinds(r: World -> bool)
    requires Kept(r) && r(SecondRequests())
    ensures r(SecondBound())
  {
    var w0 := SecondRequests();
    var m := Monitoring(1, ["a"]);
    var t := TunnelEntry(11, 1, false);
    var names := ["a", "b"];
    var w1 := w0.(procs := map[10 := m, 11 := Binding(1, names, 0, [])]);
    Onward(r, w0, Go(11, names), w1);
    var w2 := w0.(routes := map["a" := t], procs := map[10 := m, 11 := Binding(1, names, 1, ["a"])]);
    assert [] + ["a"] == ["a"] && ["a"] + ["b"] == names;
    Onward(r, w1, Go(11, []), w2);
    Onward(r, w2, Go(11, []), SecondBound());
  }

  lemma SecondSessionRegisters(r: World -> bool)
    requires Kept(r) && r(SecondBound())
    ensures r(SecondConnected())
  {
    var w1 := SecondBound().(procs := map[10 := Monitoring(1, ["a"]), 11 := Registering(1, ["a", "b"])]);
    Onward(r, SecondBound(), Go(11, []), w1);
    Onward(r, w1, Go(11, []), SecondConnected());
  }

  /** The cleanup of session 10 has run after all. */
  function SecondCutOff(): World {
    World("", OWNERS, map["b" := TunnelEntry(11, 1, false)], map[], {10},
          map[10 := Finished(1), 11 := Monitoring(1, ["a", "b"])])
  }

  /** The cleanup of session 10 has removed the route a and is about to remove the user's entry. */
  function FirstCleansUp(): World {
    SecondConnected().(routes := map["b" := TunnelEntry(11, 1, false)],
                       procs := map[10 := Cleaning(1, ["a"], 1), 11 := Monitoring(1, ["a", "b"])])
  }

  lemma FirstSessionUnbindsA(r: World -> bool)
    requires Kept(r) && r(SecondConnected())
    ensures r(FirstCleansUp())
  {
    var w0 := SecondConnected();
    var w1 := w0.(procs := map[10 := Cleaning(1, ["a"], 0), 11 := Monitoring(1, ["a", "b"])]);
    Onward(r, w0, Go(10, []), w1);
    assert "a"[0] != "b"[0];
    assert w1.routes - {"a"} == FirstCleansUp().routes;
    Onward(r, w1, Go(10, []), FirstCleansUp());
  }

  lemma FirstSessionCleansUp(r: World -> bool)
    requires Kept(r) && r(FirstCleansUp())
    ensures r(SecondCutOff())
  {
    assert FirstCleansUp().users - {1} == map[];
    Onward(r, FirstCleansUp(), Go(10, []), SecondCutOff());
  }

  /**
   A reachable run without the second assumption. Session 11 is connected and open and nothing is under
   way, but the late cleanup of session 10 has removed its entry and its route a, and left it route b.
   */
  lemma LateCleanupCutsOffSuccessor()
    ensures var w := SecondCutOff();
            && Reachable(w) && AtRest(w, 1)
            && w.procs[11] == Monitoring(1, ["a", "b"]) && 11 !in w.closed
            && 1 !in w.users && "a" !in w.routes && "b" in w.routes && w.routes["b"].session == 11
            && !Agree(w.routes, w.users, 1)
  {
    var r := (w: World) => Reachable(w);
    StartIsReachable("");
    ReachableIsKept();
    FirstSessionRequests(r);
    FirstSessionBindsA(r);
    SecondSessionEvicts(r);
    SecondSessionTakesOver(r);
    SecondSessionBinds(r);
    SecondSessionRegisters(r);
    FirstSessionUnbindsA(r);
    FirstSessionCleansUp(r);
    assert "a"[0] != "b"[0];
    assert SecondCutOff().routes["b"].user == 1;
  }

  // the cleanup comes while the successor is about to register

  /** Session 11 has bound the domain a and is about to register; the cleanup of session 10 has not started. */
  function SecondRegistering(): World {
    World("", OWNERS, map["a" := TunnelEntry(11, 1, false)], map[], {10},
          map[10 := Monitoring(1, ["a"]), 11 := Registering(1, ["a"])])
  }

  lemma SecondSessionBindsA(r: World -> bool)
    requires Kept(r) && r(SecondRequests())
    ensures r(SecondRegistering())
  {
    var w0 := SecondRequests();
    var m := Monitoring(1, ["a"]);
    var w1 := w0.(procs := map[10 := m, 11 := Binding(1, ["a"], 0, [])]);
    Onward(r, w0, Go(11, ["a"]), w1);
    var w2 := SecondRegistering().(procs := map[10 := m, 11 := Binding(1, ["a"], 1, ["a"])]);
    assert [] + ["a"] == ["a"];
    Onward(r, w1, Go(11, []), w2);
    Onward(r, w2, Go(11, []), SecondRegistering());
  }

  /** The cleanup of session 10 has taken the route of session 11, which is about to register. */
  function SecondUnbound(): World {
    World("", OWNERS, map[], map[], {10}, map[10 := Finished(1), 11 := Registering(1, ["a"])])
  }

  lemma FirstSessionCleansUpEarly(r: World -> bool)
    requires Kept(r) && r(SecondRegistering())
    ensures r(SecondUnbound())
  {
    var w0 := SecondRegistering();
    var g := Registering(1, ["a"]);
    var w1 := w0.(procs := map[10 := Cleaning(1, ["a"], 0), 11 := g]);
    Onward(r, w0, Go(10, []), w1);
    var w2 := SecondUnbound().(procs := map[10 := Cleaning(1, ["a"], 1), 11 := g]);
    assert w1.routes - {"a"} == w2.routes;
    Onward(r, w1, Go(10, []), w2);
    assert w2.users - {1} == map[];
    Onward(r, w2, Go(10, []), SecondUnbound());
  }

  /** Session 11 has registered all the same. */
  function SecondWithoutRoutes(): World {
    World("", OWNERS, map[], map[1 := UserSession(1, 11, ["a"])], {10},
          map[10 := Finished(1), 11 := Monitoring(1, ["a"])])
  }

  lemma SecondSessionRegistersInVain(r: World -> bool)
    requires Kept(r) && r(Start(""))
    ensures r(SecondRegistering()) && r(SecondWithoutRoutes())
  {
    FirstSessionRequests(r);
    FirstSessionBindsA(r);
    SecondSessionEvicts(r);
    SecondSessionTakesOver(r);
    SecondSessionBindsA(r);
    FirstSessionCleansUpEarly(r);
    Onward(r, SecondUnbound(), Go(11, []), SecondWithoutRoutes());
  }

  lemma EarlyCleanupIsNotHarmless()
    ensures var w := SecondRegistering();
            var c := Control(w.routes, w.users, w.closed);
            1 !in w.users && CleanedUp(c, 1, w.procs[10].bound) != c
  {
    var w := SecondRegistering();
    LateCleanup(Control(w.routes, w.users, w.closed), 1, ["a"]);
    assert "a" in ["a"] && "a" in w.routes;
  }

  /**
   The other way a late cleanup fails. When it starts the user has no entry, yet it is not harmless; and in
   the end session 11 is connected and open and has its entry, but no route at all.
   */
  lemma LateCleanupLeavesEntryWithoutRoutes()
    ensures var w := SecondRegistering();
            var c := Control(w.routes, w.users, w.closed);
            Reachable(w) && 1 !in w.users && CleanedUp(c, 1, w.procs[10].bound) != c
    ensures var w := SecondWithoutRoutes();
            && Reachable(w) && AtRest(w, 1) && 11 !in w.closed
            && w.users[1] == UserSession(1, 11, ["a"]) && NoRoutes(w.routes, 1) && !Agree(w.routes, w.users, 1)
  {
    StartIsReachable("");
    ReachableIsKept();
    SecondSessionRegistersInVain((w: World) => Reachable(w));
    EarlyCleanupIsNotHarmless();
    assert "a" in SecondWithoutRoutes().users[1].domains;
  }

  // two handshakes of one user overlap

  /** Sessions 10 and 11 have both found no entry and are about to read their requests. */
  function BothRequest(): World {
    World("", OWNERS, map[], map[], {}, map[10 := Requesting(1), 11 := Requesting(1)])
  }

  lemma SecondSessionOverlaps(r: World -> bool)
    requires Kept(r) && r(FirstRequests())
    ensures r(BothRequest())
  {
    var w1 := BothRequest().(procs := map[10 := Requesting(1), 11 := Authenticated(1, false)]);
    Onward(r, FirstRequests(), Connect(11, 1, false), w1);
    Onward(r, w1, Go(11, []), BothRequest());
  }

  function BothBegin(): World {
    BothRequest().(procs := map[10 := Binding(1, ["a"], 0, []), 11 := Binding(1, ["a"], 0, [])])
  }

  lemma BothSessionsBegin(r: World -> bool)
    requires Kept(r) && r(BothRequest())
    ensures r(BothBegin())
  {
    var w1 := BothRequest().(procs := map[10 := Binding(1, ["a"], 0, []), 11 := Requesting(1)]);
    Onward(r, BothRequest(), Go(10, ["a"]), w1);
    Onward(r, w1, Go(11, ["a"]), BothBegin());
  }

  /** Both have bound the domain a, session 11 after session 10. */
  function BothBound(): World {
    World("", OWNERS, map["a" := TunnelEntry(11, 1, false)], map[], {},
          map[10 := Binding(1, ["a"], 1, ["a"]), 11 := Binding(1, ["a"], 1, ["a"])])
  }

  lemma BothSessionsBind(r: World -> bool)
    requires Kept(r) && r(BothBegin())
    ensures r(BothBound())
  {
    var w1 := BothBound().(routes := map["a" := TunnelEntry(10, 1, false)],
                           procs := map[10 := Binding(1, ["a"], 1, ["a"]), 11 := Binding(1, ["a"], 0, [])]);
    assert [] + ["a"] == ["a"];
    Onward(r, BothBegin(), Go(10, []), w1);
    Onward(r, w1, Go(11, []), BothBound());
  }

  function BothRegister(): World {
    BothBound().(procs := map[10 := Registering(1, ["a"]), 11 := Registering(1, ["a"])])
  }

  lemma BothSessionsBound(r: World -> bool)
    requires Kept(r) && r(BothBound())
    ensures r(BothRegister())
  {
    var w1 := BothBound().(procs := map[10 := Registering(1, ["a"]), 11 := Binding(1, ["a"], 1, ["a"])]);
    Onward(r, BothBound(), Go(10, []), w1);
    Onward(r, w1, Go(11, []), BothRegister());
  }

  /** Both have registered, session 10 after session 11. */
  function BothConnected(): World {
    BothBound().(users := map[1 := UserSession(1, 10, ["a"])],
                 procs := map[10 := Monitoring(1, ["a"]), 11 := Monitoring(1, ["a"])])
  }

  lemma BothSessionsRegister(r: World -> bool)
    requires Kept(r) && r(BothRegister())
    ensures r(BothConnected())
  {
    var w1 := BothBound().(users := map[1 := UserSession(1, 11, ["a"])],
                           procs := map[10 := Registering(1, ["a"]), 11 := Monitoring(1, ["a"])]);
    Onward(r, BothRegister(), Go(11, []), w1);
    Onward(r, w1, Go(10, []), BothConnected());
  }

  /**
   A reachable run without the first assumption, though no session is closed and no cleanup ever starts: the
   entry is that of session 10, while its only domain is routed to session 11.
   */
  lemma OverlappingHandshakesDisagree()
    ensures var w := BothConnected();
            && Reachable(w) && AtRest(w, 1) && w.closed == {}
            && w.users[1] == UserSession(1, 10, ["a"]) && w.routes["a"].session == 11
            && !Agree(w.routes, w.users, 1)
  {
    var r := (w: World) => Reachable(w);
    StartIsReachable("");
    ReachableIsKept();
    FirstSessionRequests(r);
    SecondSessionOverlaps(r);
    BothSessionsBegin(r);
    BothSessionsBind(r);
    BothSessionsBound(r);
    BothSessionsRegister(r);
    assert "a" in BothConnected().users[1].domains;
  }
}
