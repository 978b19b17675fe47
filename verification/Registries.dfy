/**
 The two registries of internal/server/registry.go and internal/server/user_sessions.go, and the parts
 of a handshake in internal/server/server.go that work on them. A yamux session is an opaque number.
 */
module Registries {
  import opened Options

  datatype TunnelEntry = TunnelEntry(session: nat, user: nat, bandwidthExempt: bool)

  datatype UserSession = UserSession(user: nat, session: nat, domains: seq<string>)

  type Routes = map<string, TunnelEntry>
  type Users = map<nat, UserSession>

  /** The name a domain is registered under: fully qualified, unless there is no root domain. */
  function Fqdn(root: string, name: string): string {
    if root == "" then name else name + "." + root
  }

  /** The parts of a hostname: the name, a dot and the root domain, or the name alone without one. */
  lemma FqdnParts(root: string, name: string)
    ensures var h := Fqdn(root, name);
            && |h| == |name| + (if root == "" then 0 else 1 + |root|)
            && h[..|name|] == name
            && (root != "" ==> h[|name|] == '.' && h[|name| + 1..] == root)
  {
  }

  /** Appending the root is injective. */
  lemma FqdnInjective(root: string, a: string, b: string)
    requires Fqdn(root, a) == Fqdn(root, b)
    ensures a == b
  {
    if root != "" {
      assert |a| == |b|;
      assert a == Fqdn(root, a)[..|a|] && b == Fqdn(root, b)[..|b|];
    }
  }

  /** One round of `bindDomains`: a name that is not the user's, or whose owner cannot be read, is skipped. */
  function BindOne(owners: map<string, nat>, root: string, session: nat, user: nat, exempt: bool,
                   routes: Routes, bound: seq<string>, name: string, dbError: bool): (Routes, seq<string>) {
    if dbError || name !in owners || owners[name] != user then (routes, bound)
    else
      var host := Fqdn(root, name);
      (routes[host := TunnelEntry(session, user, exempt)], bound + [host])
  }

  /** `bindDomains` after its first `n` names. */
  function BindFirst(owners: map<string, nat>, root: string, session: nat, user: nat, exempt: bool,
                     routes: Routes, names: seq<string>, dbErrors: seq<bool>, n: nat): (Routes, seq<string>)
    requires n <= |names| == |dbErrors|
  {
    if n == 0 then (routes, [])
    else
      var (r, bound) := BindFirst(owners, root, session, user, exempt, routes, names, dbErrors, n - 1);
      BindOne(owners, root, session, user, exempt, r, bound, names[n - 1], dbErrors[n - 1])
  }

  /** The hostname is that of one of the first `n` names, which is the user's and could be checked. */
  ghost predicate Asked(owners: map<string, nat>, root: string, user: nat, names: seq<string>, dbErrors: seq<bool>, n: nat, h: string)
    requires n <= |names| == |dbErrors|
  {
    exists i :: 0 <= i < n && !dbErrors[i] && names[i] in owners && owners[names[i]] == user && h == Fqdn(root, names[i])
  }

  lemma AskedOneMore(owners: map<string, nat>, root: string, user: nat, names: seq<string>, dbErrors: seq<bool>, n: nat, h: string)
    requires n < |names| == |dbErrors|
    ensures Asked(owners, root, user, names, dbErrors, n + 1, h) <==>
              || Asked(owners, root, user, names, dbErrors, n, h)
              || (!dbErrors[n] && names[n] in owners && owners[names[n]] == user && h == Fqdn(root, names[n]))
  {
  }

  /** What binding does: the user's own names among those asked for, in order, all to this session. */
  lemma {:induction false} BindFirstBinds(owners: map<string, nat>, root: string, session: nat, user: nat, exempt: bool,
                                          routes: Routes, names: seq<string>, dbErrors: seq<bool>, n: nat)
    requires n <= |names| == |dbErrors|
    ensures var (r, bound) := BindFirst(owners, root, session, user, exempt, routes, names, dbErrors, n);
            && (forall h :: h in bound <==> Asked(owners, root, user, names, dbErrors, n, h))
            && (forall h :: h in bound ==> h in r && r[h] == TunnelEntry(session, user, exempt))
            && (forall h :: h !in bound ==> (h in r <==> h in routes) && (h in routes ==> r[h] == routes[h]))
  {
    if n > 0 {
      BindFirstBinds(owners, root, session, user, exempt, routes, names, dbErrors, n - 1);
      var bound := BindFirst(owners, root, session, user, exempt, routes, names, dbErrors, n).1;
      forall h
        ensures h in bound <==> Asked(owners, root, user, names, dbErrors, n, h)
      {
        AskedOneMore(owners, root, user, names, dbErrors, n - 1, h);
      }
    }
  }

  /** The hosts of those names that are the user's and can be checked, in the order of the request. */
  function Bindable(owners: map<string, nat>, root: string, user: nat, names: seq<string>, dbErrors: seq<bool>): (hosts: seq<string>)
    requires |names| == |dbErrors|
    ensures forall h :: h in hosts <==> Asked(owners, root, user, names, dbErrors, |names|, h)
  {
    if names == [] then []
    else
      var rest := Bindable(owners, root, user, names[1..], dbErrors[1..]);
      AskedTail(owners, root, user, names, dbErrors);
      if !dbErrors[0] && names[0] in owners && owners[names[0]] == user then [Fqdn(root, names[0])] + rest else rest
  }

  lemma AskedTail(owners: map<string, nat>, root: string, user: nat, names: seq<string>, dbErrors: seq<bool>)
    requires |names| == |dbErrors| && names != []
    ensures forall h :: Asked(owners, root, user, names, dbErrors, |names|, h) <==>
              || (!dbErrors[0] && names[0] in owners && owners[names[0]] == user && h == Fqdn(root, names[0]))
              || Asked(owners, root, user, names[1..], dbErrors[1..], |names| - 1, h)
  {
    forall h | Asked(owners, root, user, names[1..], dbErrors[1..], |names| - 1, h)
      ensures Asked(owners, root, user, names, dbErrors, |names|, h)
    {
      var i :| 0 <= i < |names| - 1 && !dbErrors[1..][i] && names[1..][i] in owners && owners[names[1..][i]] == user
            && h == Fqdn(root, names[1..][i]);
      assert names[i + 1] == names[1..][i] && dbErrors[i + 1] == dbErrors[1..][i];
    }
    forall h | Asked(owners, root, user, names, dbErrors, |names|, h)
      ensures (!dbErrors[0] && names[0] in owners && owners[names[0]] == user && h == Fqdn(root, names[0]))
           || Asked(owners, root, user, names[1..], dbErrors[1..], |names| - 1, h)
    {
      var i :| 0 <= i < |names| && !dbErrors[i] && names[i] in owners && owners[names[i]] == user && h == Fqdn(root, names[i]);
      if i > 0 {
        assert names[1..][i - 1] == names[i] && dbErrors[1..][i - 1] == dbErrors[i];
      }
    }
  }

  lemma {:induction false} BindableOneMore(owners: map<string, nat>, root: string, user: nat, names: seq<string>, dbErrors: seq<bool>,
                                           name: string, dbError: bool)
    requires |names| == |dbErrors|
    ensures Bindable(owners, root, user, names + [name], dbErrors + [dbError])
         == Bindable(owners, root, user, names, dbErrors) + if !dbError && name in owners && owners[name] == user then [Fqdn(root, name)] else []
  {
    if names != [] {
      BindableOneMore(owners, root, user, names[1..], dbErrors[1..], name, dbError);
      assert (names + [name])[1..] == names[1..] + [name] && (dbErrors + [dbError])[1..] == dbErrors[1..] + [dbError];
    }
  }

  /** The domains reported are the bindable ones in the order asked for. */
  lemma {:induction false} BoundInOrder(owners: map<string, nat>, root: string, session: nat, user: nat, exempt: bool,
                                        routes: Routes, names: seq<string>, dbErrors: seq<bool>, n: nat)
    requires n <= |names| == |dbErrors|
    ensures BindFirst(owners, root, session, user, exempt, routes, names, dbErrors, n).1
         == Bindable(owners, root, user, names[..n], dbErrors[..n])
  {
    if n > 0 {
      BoundInOrder(owners, root, session, user, exempt, routes, names, dbErrors, n - 1);
      assert names[..n] == names[..n - 1] + [names[n - 1]] && dbErrors[..n] == dbErrors[..n - 1] + [dbErrors[n - 1]];
      BindableOneMore(owners, root, user, names[..n - 1], dbErrors[..n - 1], names[n - 1], dbErrors[n - 1]);
    }
  }

  /** The names to bind: those requested, or all of the user's if none are; None if either cannot be read. */
  function Resolve(request: Option<seq<string>>, own: Option<seq<string>>): Option<seq<string>> {
    if request == Some([]) then own else request
  }

  /** A request for no domain in particular binds every domain of the user, and no other. */
  lemma EmptyRequestBindsAll(owners: map<string, nat>, root: string, session: nat, user: nat, exempt: bool,
                             routes: Routes, own: seq<string>, dbErrors: seq<bool>, name: string)
    requires |own| == |dbErrors| && true !in dbErrors
    requires forall x :: x in own <==> x in owners && owners[x] == user
    ensures var names := Resolve(Some([]), Some(own)).value;
            var (r, bound) := BindFirst(owners, root, session, user, exempt, routes, names, dbErrors, |names|);
            Fqdn(root, name) in bound <==> name in owners && owners[name] == user
  {
    BindFirstBinds(owners, root, session, user, exempt, routes, own, dbErrors, |own|);
    if name in own {
      var i :| 0 <= i < |own| && own[i] == name;
      assert !dbErrors[i] by { assert dbErrors[i] in dbErrors; }
    }
    forall i | 0 <= i < |own| && Fqdn(root, own[i]) == Fqdn(root, name)
      ensures own[i] == name
    {
      FqdnInjective(root, own[i], name);
    }
  }

  function ToSet(s: seq<string>): set<string> { set x | x in s }

  datatype Reply = AlreadyConnected | BadRequest | NoDomains | Connected(domains: seq<string>)

  /** Both registries, and the sessions whose close channel is closed. */
  datatype Control = Control(routes: Routes, users: Users, closed: set<nat>)

  /** `force`: the old session's routes go, it is closed, and its entry goes. */
  function Evict(c: Control, user: nat): Control {
    if user in c.users then
      Control(c.routes - ToSet(c.users[user].domains), c.users - {user}, c.closed + {c.users[user].session})
    else c
  }

  /** From the tunnel request on; `names` is what `Resolve` gives. */
  function Serve(owners: map<string, nat>, root: string, c: Control, session: nat, user: nat,
                 names: Option<seq<string>>, dbErrors: seq<bool>, exempt: bool): (Control, Reply)
    requires names.Some? ==> |names.value| == |dbErrors|
  {
    if names.None? then (c.(closed := c.closed + {session}), BadRequest)
    else
      var (routes, bound) := BindFirst(owners, root, session, user, exempt, c.routes, names.value, dbErrors, |dbErrors|);
      if bound == [] then (Control(routes, c.users, c.closed + {session}), NoDomains)
      else (Control(routes, c.users[user := UserSession(user, session, bound)], c.closed), Connected(bound))
  }

  /** A handshake from the authenticated user on, when nothing else runs in between. */
  function Handshake(owners: map<string, nat>, root: string, c: Control, session: nat, user: nat, force: bool,
                     names: Option<seq<string>>, dbErrors: seq<bool>, exempt: bool): (Control, Reply)
    requires names.Some? ==> |names.value| == |dbErrors|
  {
    if user in c.users && !force then (c.(closed := c.closed + {session}), AlreadyConnected)
    else Serve(owners, root, Evict(c, user), session, user, names, dbErrors, exempt)
  }

  /** The bound hosts lead to `entry`, the evicted ones nowhere, and all others where they did. */
  ghost predicate Rebound(before: Routes, after: Routes, evicted: seq<string>, bound: seq<string>, entry: TunnelEntry) {
    && (forall h :: h in bound ==> h in after && after[h] == entry)
    && (forall h :: h in evicted && h !in bound ==> h !in after)
    && (forall h :: h !in evicted && h !in bound ==> (h in after <==> h in before) && (h in before ==> after[h] == before[h]))
  }

  lemma ServeEffect(owners: map<string, nat>, root: string, c: Control, session: nat, user: nat,
                    names: Option<seq<string>>, dbErrors: seq<bool>, exempt: bool)
    requires names.Some? ==> |names.value| == |dbErrors|
    ensures var (c', reply) := Serve(owners, root, c, session, user, names, dbErrors, exempt);
            && !reply.AlreadyConnected?
            && Rebound(c.routes, c'.routes, [], if reply.Connected? then reply.domains else [], TunnelEntry(session, user, exempt))
            && c'.users == (if reply.Connected? then c.users[user := UserSession(user, session, reply.domains)] else c.users)
            && c'.closed == (if reply.Connected? then c.closed else c.closed + {session})
  {
    if names.Some? {
      BindFirstBinds(owners, root, session, user, exempt, c.routes, names.value, dbErrors, |dbErrors|);
    }
  }

  lemma ReboundAfterEviction(before: Routes, after: Routes, evicted: seq<string>, bound: seq<string>, entry: TunnelEntry)
    requires Rebound(before - ToSet(evicted), after, [], bound, entry)
    ensures Rebound(before, after, evicted, bound, entry)
  {
  }

  /**
   What a handshake leaves: a rejected one changes no registry; otherwise the evicted routes and entry are
   gone, and if anything was bound the user's entry is this session with exactly these domains. The sessions
   it closes are its own, unless it connected, and the evicted one.
   */
  lemma HandshakeEffect(owners: map<string, nat>, root: string, c: Control, session: nat, user: nat, force: bool,
                        names: Option<seq<string>>, dbErrors: seq<bool>, exempt: bool)
    requires names.Some? ==> |names.value| == |dbErrors|
    ensures var (c', reply) := Handshake(owners, root, c, session, user, force, names, dbErrors, exempt);
            var evicted := if user in c.users then [c.users[user].session] else [];
            if user in c.users && !force then c' == c.(closed := c.closed + {session}) && reply == AlreadyConnected
            else
              && !reply.AlreadyConnected?
              && Rebound(c.routes, c'.routes, if user in c.users then c.users[user].domains else [],
                         if reply.Connected? then reply.domains else [], TunnelEntry(session, user, exempt))
              && c'.users == (if reply.Connected? then c.users[user := UserSession(user, session, reply.domains)] else c.users - {user})
              && forall id :: id in c'.closed <==> id in c.closed || id in evicted || (!reply.Connected? && id == session)
  {
    if user !in c.users || force {
      var (c', reply) := Handshake(owners, root, c, session, user, force, names, dbErrors, exempt);
      ServeEffect(owners, root, Evict(c, user), session, user, names, dbErrors, exempt);
      if user in c.users {
        ReboundAfterEviction(c.routes, c'.routes, c.users[user].domains, if reply.Connected? then reply.domains else [],
                             TunnelEntry(session, user, exempt));
      }
    }
  }

  /** What `monitorSession` removes: by name, whoever is registered under it by then. */
  function CleanedUp(c: Control, user: nat, boundDomains: seq<string>): Control {
    Control(c.routes - ToSet(boundDomains), c.users - {user}, c.closed)
  }

  class TunnelRegistry {
    var sessions: Routes

    constructor () ensures sessions == map[] { sessions := map[]; }

    method Register(hostname: string, session: nat, user: nat, bandwidthExempt: bool)
      modifies this
      ensures sessions == old(sessions)[hostname := TunnelEntry(session, user, bandwidthExempt)]
    {
      sessions := sessions[hostname := TunnelEntry(session, user, bandwidthExempt)];
    }

    /** It takes no session: whoever calls it removes whatever is registered under the name. */
    method Unregister(hostname: string)
      modifies this
      ensures sessions == old(sessions) - {hostname}
    {
      sessions := sessions - {hostname};
    }

    method GetEntry(hostname: string) returns (entry: Option<TunnelEntry>)
      ensures entry.Some? <==> hostname in sessions
      ensures entry.Some? ==> entry.value == sessions[hostname]
    {
      entry := if hostname in sessions then Some(sessions[hostname]) else None;
    }
  }

  class UserSessionRegistry {
    var sessions: Users

    constructor () ensures sessions == map[] { sessions := map[]; }

    method GetSession(user: nat) returns (session: Option<UserSession>)
      ensures session.Some? <==> user in sessions
      ensures session.Some? ==> session.value == sessions[user]
    {
      session := if user in sessions then Some(sessions[user]) else None;
    }

    /** Registers the session and hands back the one it replaces, which the server ignores. */
    method Register(user: nat, session: nat, domains: seq<string>) returns (replaced: Option<UserSession>)
      modifies this
      ensures sessions == old(sessions)[user := UserSession(user, session, domains)]
      ensures replaced == if user in old(sessions) then Some(old(sessions)[user]) else None
    {
      replaced := if user in sessions then Some(sessions[user]) else None;
      sessions := sessions[user := UserSession(user, session, domains)];
    }

    method Unregister(user: nat)
      modifies this
      ensures sessions == old(sessions) - {user}
    {
      sessions := sessions - {user};
    }
  }

  class Server {
    const registry: TunnelRegistry
    const userSessions: UserSessionRegistry
    const rootDomain: string
    var owners: map<string, nat>     // the table of domains, unique by name
    var closed: set<nat>             // the sessions whose close channel is closed

    constructor (registry: TunnelRegistry, userSessions: UserSessionRegistry, rootDomain: string)
      ensures this.registry == registry && this.userSessions == userSessions && this.rootDomain == rootDomain
      ensures owners == map[] && closed == {}
    {
      this.registry := registry;
      this.userSessions := userSessions;
      this.rootDomain := rootDomain;
      owners := map[];
      closed := {};
    }

    method UnregisterAll(domains: seq<string>)
      modifies registry
      ensures registry.sessions == old(registry.sessions) - ToSet(domains)
    {
      for i := 0 to |domains|
        invariant registry.sessions == old(registry.sessions) - ToSet(domains[..i])
      {
        registry.Unregister(domains[i]);
        assert ToSet(domains[..i + 1]) == ToSet(domains[..i]) + {domains[i]};
      }
      assert domains[..|domains|] == domains;
    }

    method BindDomains(session: nat, user: nat, names: seq<string>, dbErrors: seq<bool>, exempt: bool)
      returns (bound: seq<string>)
      requires |names| == |dbErrors|
      modifies registry
      ensures (registry.sessions, bound) ==
                BindFirst(owners, rootDomain, session, user, exempt, old(registry.sessions), names, dbErrors, |names|)
    {
      bound := [];
      for i := 0 to |names|
        invariant (registry.sessions, bound) ==
                    BindFirst(owners, rootDomain, session, user, exempt, old(registry.sessions), names, dbErrors, i)
      {
        var name := names[i];
        if dbErrors[i] || name !in owners || owners[name] != user {
          continue;
        }
        var regName := name;
        if rootDomain != "" {
          regName := name + "." + rootDomain;
        }
        registry.Register(regName, session, user, exempt);
        bound := bound + [regName];
      }
    }

    ghost function State(): Control
      reads this, registry, userSessions
    {
      Control(registry.sessions, userSessions.sessions, closed)
    }

    /** The request, or the user's domains from the database if it names none; None on an error. */
    method ProcessTunnelRequest(session: nat, user: nat, request: Option<seq<string>>, own: Option<seq<string>>,
                                dbErrors: seq<bool>, exempt: bool) returns (bound: Option<seq<string>>)
      requires Resolve(request, own).Some? ==> |Resolve(request, own).value| == |dbErrors|
      modifies registry
      ensures bound.None? <==> request.None? || (request.value == [] && own.None?)
      ensures request.Some? && request.value != [] ==>
                && |request.value| == |dbErrors| && bound.Some?
                && bound.value == Bindable(owners, rootDomain, user, request.value, dbErrors)
      ensures request == Some([]) && own.Some? ==>
                && |own.value| == |dbErrors| && bound.Some?
                && bound.value == Bindable(owners, rootDomain, user, own.value, dbErrors)
      ensures bound.None? <==> Resolve(request, own).None?
      ensures bound.None? ==> registry.sessions == old(registry.sessions)
      ensures bound.Some? ==> Rebound(old(registry.sessions), registry.sessions, [], bound.value, TunnelEntry(session, user, exempt))
      ensures bound.Some? ==>
                (registry.sessions, bound.value) ==
                  BindFirst(owners, rootDomain, session, user, exempt, old(registry.sessions), Resolve(request, own).value, dbErrors, |dbErrors|)
    {
      if request.None? {
        return None;
      }
      var requestedDomains := request.value;
      if |requestedDomains| == 0 {
        if own.None? {
          return None;
        }
        requestedDomains := own.value;
      }
      var domains := BindDomains(session, user, requestedDomains, dbErrors, exempt);
      BoundInOrder(owners, rootDomain, session, user, exempt, old(registry.sessions), requestedDomains, dbErrors, |dbErrors|);
      BindFirstBinds(owners, rootDomain, session, user, exempt, old(registry.sessions), requestedDomains, dbErrors, |dbErrors|);
      assert requestedDomains[..|dbErrors|] == requestedDomains && dbErrors[..|dbErrors|] == dbErrors;
      bound := Some(domains);
    }

    method HandleConnection(session: nat, user: nat, force: bool, request: Option<seq<string>>,
                            own: Option<seq<string>>, dbErrors: seq<bool>, isAdmin: bool) returns (reply: Reply)
      requires Resolve(request, own).Some? ==> |Resolve(request, own).value| == |dbErrors|
      modifies this`closed, registry, userSessions
      ensures (State(), reply) ==
                Handshake(owners, rootDomain, old(State()), session, user, force, Resolve(request, own), dbErrors, isAdmin)
      ensures reply.AlreadyConnected? <==> user in old(userSessions.sessions) && !force
      ensures reply.BadRequest? <==>
                (user !in old(userSessions.sessions) || force) && (request.None? || (request.value == [] && own.None?))
      ensures reply.Connected? || reply.NoDomains? ==>
                && request.Some?
                && var names := if request.value == [] then own else request;
                   && names.Some? && |names.value| == |dbErrors|
                   && var bindable := Bindable(owners, rootDomain, user, names.value, dbErrors);
                      if reply.Connected? then reply.domains == bindable != [] else bindable == []
    {
      var existing := userSessions.GetSession(user);
      if existing.Some? {
        if !force {
          closed := closed + {session};
          return AlreadyConnected;
        }
        UnregisterAll(existing.value.domains);
        closed := closed + {existing.value.session};
        userSessions.Unregister(user);
      }
      assert State() == Evict(old(State()), user);
      var bound := ProcessTunnelRequest(session, user, request, own, dbErrors, isAdmin);
      if bound.None? {
        closed := closed + {session};
        return BadRequest;
      }
      if bound.value == [] {
        closed := closed + {session};
        return NoDomains;
      }
      var _ := userSessions.Register(user, session, bound.value);
      reply := Connected(bound.value);
    }

    method CleanUp(user: nat, boundDomains: seq<string>)
      modifies registry, userSessions
      ensures State() == CleanedUp(old(State()), user, boundDomains)
    {
      UnregisterAll(boundDomains);
      userSessions.Unregister(user);
    }
  }
}
