/**
 Which local port the client forwards a request to: `getLocalPortForHost` of
 internal/client/tunnel/shared.go, which scans a Go map in whatever order it comes.
 */
module HostRouting {
  import opened Options
  import opened Registries

  /** `strings.Index` and `strings.LastIndex` for one character. */
  function Index(s: string, c: char): (i: int)
    ensures -1 <= i < |s|
    ensures i == -1 ==> c !in s
    ensures i >= 0 ==> s[i] == c && c !in s[..i]
  {
    if s == "" then -1
    else if s[0] == c then 0
    else
      var i := Index(s[1..], c);
      assert i >= 0 ==> s[..i + 1] == [s[0]] + s[1..][..i];
      if i == -1 then -1 else i + 1
  }

  function LastIndex(s: string, c: char): (i: int)
    ensures -1 <= i < |s|
    ensures i == -1 ==> c !in s
    ensures i >= 0 ==> s[i] == c
    ensures forall j :: i < j < |s| ==> s[j] != c
  {
    if s == "" then -1
    else if s[|s| - 1] == c then |s| - 1
    else LastIndex(s[..|s| - 1], c)
  }

  function StripPort(host: string): string {
    var i := LastIndex(host, ':');
    if i != -1 then host[..i] else host
  }

  function FirstLabel(host: string): string {
    var i := Index(host, '.');
    if i != -1 then host[..i] else host
  }

  /** The test of the scan; `<=` is the prefix relation. */
  predicate Matches(host: string, subdomain: string) {
    subdomain + "." <= host || host == subdomain
  }

  /** An order in which the map may be iterated: every key once. */
  ghost predicate Enumerates(order: seq<string>, tunnels: map<string, string>) {
    && (forall k :: k in order <==> k in tunnels)
    && (forall i, j :: 0 <= i < j < |order| ==> order[i] != order[j])
  }

  /** The port of the first key in `order` that matches. */
  function Scan(tunnels: map<string, string>, order: seq<string>, host: string): Option<string>
    requires forall k :: k in order ==> k in tunnels
  {
    if order == [] then None
    else if Matches(host, order[0]) then Some(tunnels[order[0]])
    else Scan(tunnels, order[1..], host)
  }

  function Route(tunnels: map<string, string>, order: seq<string>, host: string): string
    requires forall k :: k in order ==> k in tunnels
  {
    var h := StripPort(host);
    var found := Scan(tunnels, order, h);
    if found.Some? then found.value
    else if FirstLabel(h) in tunnels then tunnels[FirstLabel(h)]
    else ""
  }

  method GetLocalPortForHost(tunnels: map<string, string>, order: seq<string>, host: string) returns (port: string)
    requires Enumerates(order, tunnels)
    ensures port == Route(tunnels, order, host)
  {
    var h := host;
    var colon := LastIndex(h, ':');
    if colon != -1 {
      h := h[..colon];
    }
    assert order[0..] == order;
    for i := 0 to |order|
      invariant Scan(tunnels, order, h) == Scan(tunnels, order[i..], h)
    {
      assert order[i..][0] == order[i] && order[i..][1..] == order[i + 1..];
      if Matches(h, order[i]) {
        return tunnels[order[i]];
      }
    }
    var subdomain := h;
    var dot := Index(h, '.');
    if dot != -1 {
      subdomain := h[..dot];
    }
    if subdomain in tunnels {
      return tunnels[subdomain];
    }
    port := "";
  }

  /** What the scan finds: the port of some matching key, and nothing only if none matches. */
  lemma {:induction false} ScanFinds(tunnels: map<string, string>, order: seq<string>, host: string)
    requires forall k :: k in order ==> k in tunnels
    ensures var r := Scan(tunnels, order, host);
            && (r.None? ==> forall k :: k in order ==> !(k + "." <= host) && host != k)
            && (r.Some? ==> exists k :: k in order && (k + "." <= host || host == k) && tunnels[k] == r.value)
  {
    if order != [] {
      assert order == [order[0]] + order[1..];
      if Matches(host, order[0]) {
        assert order[0] in order;
      } else {
        ScanFinds(tunnels, order[1..], host);
      }
    }
  }

  /** The first label always matches, so the lookup after the scan never finds what the scan did not. */
  lemma FirstLabelMatches(host: string)
    ensures Matches(host, FirstLabel(host))
  {
    var i := Index(host, '.');
    if i != -1 {
      assert host[..i] + "." == host[..i + 1];
    }
  }

  lemma FallbackNeverFires(tunnels: map<string, string>, order: seq<string>, host: string)
    requires Enumerates(order, tunnels) && Scan(tunnels, order, host).None?
    ensures FirstLabel(host) !in tunnels
  {
    ScanFinds(tunnels, order, host);
    FirstLabelMatches(host);
  }

  // ---- order ----

  ghost function AnyOrder(keys: set<string>): (order: seq<string>)
    ensures forall k :: k in order <==> k in keys
    ensures forall i, j :: 0 <= i < j < |order| ==> order[i] != order[j]
  {
    if keys == {} then []
    else
      var k :| k in keys;
      [k] + AnyOrder(keys - {k})
  }

  ghost predicate MatchesAgree(tunnels: map<string, string>, host: string) {
    forall k, k' :: k in tunnels && k' in tunnels && Matches(host, k) && Matches(host, k') ==> tunnels[k] == tunnels[k']
  }

  /** Starting the iteration at a matching key yields that key's port. */
  lemma FirstMatchWins(tunnels: map<string, string>, host: string, k: string) returns (order: seq<string>)
    requires k in tunnels && Matches(StripPort(host), k)
    ensures Enumerates(order, tunnels) && Route(tunnels, order, host) == tunnels[k]
  {
    var rest := AnyOrder(tunnels.Keys - {k});
    order := [k] + rest;
    assert forall i :: 0 <= i < |rest| ==> rest[i] in rest;
    assert forall x :: x in order <==> x == k || x in rest;
  }

  lemma SameRouteIfMatchesAgree(tunnels: map<string, string>, host: string, o: seq<string>, o': seq<string>)
    requires MatchesAgree(tunnels, StripPort(host)) && Enumerates(o, tunnels) && Enumerates(o', tunnels)
    ensures Route(tunnels, o, host) == Route(tunnels, o', host)
  {
    ScanFinds(tunnels, o, StripPort(host));
    ScanFinds(tunnels, o', StripPort(host));
  }

  /**
   The exact condition for a deterministic answer: the port does not depend on the order in which the map
   is iterated if and only if all keys that match the host have the same port.
   */
  lemma OrderIrrelevantIffMatchesAgree(tunnels: map<string, string>, host: string)
    ensures MatchesAgree(tunnels, StripPort(host)) <==>
              (forall o, o' :: Enumerates(o, tunnels) && Enumerates(o', tunnels) ==> Route(tunnels, o, host) == Route(tunnels, o', host))
  {
    if MatchesAgree(tunnels, StripPort(host)) {
      forall o, o' | Enumerates(o, tunnels) && Enumerates(o', tunnels)
        ensures Route(tunnels, o, host) == Route(tunnels, o', host)
      {
        SameRouteIfMatchesAgree(tunnels, host, o, o');
      }
    } else {
      var h := StripPort(host);
      var k, k' :| k in tunnels && k' in tunnels && Matches(h, k) && Matches(h, k') && tunnels[k] != tunnels[k'];
      var o := FirstMatchWins(tunnels, host, k);
      var o' := FirstMatchWins(tunnels, host, k');
    }
  }

  ghost predicate DotFreeKeys(tunnels: map<string, string>) {
    forall k :: k in tunnels ==> '.' !in k
  }

  /** A key without dots matches exactly the hosts whose first label it is. */
  lemma DotFreeMatchesFirstLabel(host: string, key: string)
    requires '.' !in key
    ensures Matches(host, key) <==> FirstLabel(host) == key
  {
    FirstLabelMatches(host);
    var i := Index(host, '.');
    if key + "." <= host {
      var d := |key|;
      assert host[d] == '.' && host[..d] == key;
    }
  }

  /** For keys without dots the scan is a lookup of the first label, in every order. */
  lemma RouteIsLookup(tunnels: map<string, string>, order: seq<string>, host: string)
    requires DotFreeKeys(tunnels) && Enumerates(order, tunnels)
    ensures var first := FirstLabel(StripPort(host));
            Route(tunnels, order, host) == if first in tunnels then tunnels[first] else ""
  {
    var h := StripPort(host);
    ScanFinds(tunnels, order, h);
    forall k | k in tunnels
      ensures Matches(h, k) <==> FirstLabel(h) == k
    {
      DotFreeMatchesFirstLabel(h, k);
    }
  }

  /** A dotted key next to its first label makes the answer depend on the order. */
  lemma DottedKeysAreAmbiguous(p: string, q: string)
    requires p != q
    ensures var tunnels := map["a" := p, "a.b" := q];
            && Enumerates(["a", "a.b"], tunnels) && Enumerates(["a.b", "a"], tunnels)
            && Route(tunnels, ["a", "a.b"], "a.b.c") == p && Route(tunnels, ["a.b", "a"], "a.b.c") == q
  {
    var tunnels := map["a" := p, "a.b" := q];
    assert "a" != "a.b" by { assert |"a"| != |"a.b"|; }
    var host := "a.b.c";
    assert forall i :: 0 <= i < |host| ==> host[i] != ':';
    assert StripPort(host) == host;
    assert Matches(host, "a") by { assert host[..2] == "a" + "."; }
    assert Matches(host, "a.b") by { assert host[..4] == "a.b" + "."; }
  }

  /** Only what follows the last colon is a port; a host without a colon stays as it is. */
  lemma StripPortOf(h: string, port: string)
    requires ':' !in port
    ensures StripPort(h + ":" + port) == h && (':' !in h ==> StripPort(h) == h)
  {
    var full := h + ":" + port;
    var i := LastIndex(full, ':');
    assert full[|h|] == ':';
    assert full[..|h|] == h;
  }

  /**
   Client and server agree: a name that the server has bound under `Fqdn` is routed by the client to the
   port configured for it, with or without a port in the host, whatever the order of the map.
   */
  lemma BoundNameReachesItsPort(tunnels: map<string, string>, order: seq<string>, root: string, name: string, port: string)
    requires DotFreeKeys(tunnels) && Enumerates(order, tunnels) && name in tunnels
    requires ':' !in name && ':' !in root && ':' !in port
    ensures Route(tunnels, order, Fqdn(root, name)) == tunnels[name]
    ensures Route(tunnels, order, Fqdn(root, name) + ":" + port) == tunnels[name]
  {
    var h := Fqdn(root, name);
    StripPortOf(h, port);
    DotFreeMatchesFirstLabel(h, name);
    assert Matches(h, name) by {
      if root != "" {
        assert h[..|name| + 1] == name + ".";
      }
    }
    RouteIsLookup(tunnels, order, h);
    RouteIsLookup(tunnels, order, h + ":" + port);
  }
}
