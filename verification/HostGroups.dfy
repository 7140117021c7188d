/**
 Host grouping (the loop over `domains` in `buildCaddyConfig`, caddy.ts).

 Routes are grouped by the hostname they are served on, whichever Domain row stores them.
 `GroupHosts` is the source's loop, which fills a map row by row; `HostOf` says what one
 host's entry means, with no order of filling in it. That the two agree makes the result
 independent of the order of the rows.
 */
module HostGroups {
  import opened Wrappers
  import opened Text

  datatype Service = Service(id: nat, active: bool)

  datatype Route = Route(id: nat, subdomain: string, pathPrefix: string, httpOnly: bool, service: Option<Service>)

  datatype Domain = Domain(hostname: string, email: string, active: bool, siteySubdomainsEnabled: bool,
                           routes: seq<Route>)

  datatype Host = Host(routes: seq<Route>, email: string, fallback: bool, exact: bool, probe: bool)

  function Label(subdomain: string): string {
    ToLower(Trim(subdomain))
  }

  /** `resolveRouteHostname` */
  function ResolveRouteHostname(domainHostname: string, subdomain: string): Option<string> {
    if !IsWildcard(domainHostname) then Some(domainHostname)
    else
      var name := Label(subdomain);
      if name == "" then None else Some(name + "." + domainHostname[2..])
  }

  function SanitizeDnsName(name: string): string {
    var t := ToLower(Trim(name));
    if t != "" && t[|t| - 1] == '.' then t[..|t| - 1] else t
  }

  /** `getWildcardStatusProbeHostname` */
  function ProbeHostname(hostname: string): Option<string> {
    var normalized := SanitizeDnsName(hostname);
    if IsWildcard(normalized) then Some("sitey-dns-check." + normalized[2..]) else None
  }

  function PanelHostname(hostname: string): string
    requires IsWildcard(hostname)
  {
    "sitey." + hostname[2..]
  }

  predicate Served(r: Route) {
    r.service.Some? && r.service.value.active
  }

  /** `toServiceRoutes` */
  function ServiceRoutes(routes: seq<Route>): seq<Route> {
    if routes == [] then []
    else ServiceRoutes(routes[..|routes| - 1]) + if Served(routes[|routes| - 1]) then [routes[|routes| - 1]] else []
  }

  // ---- The loop --------------------------------------------------------------------

  function Get(hosts: map<string, Host>, h: string): Option<Host> {
    if h in hosts then Some(hosts[h]) else None
  }

  /** What `add` makes of a host's entry. */
  function Added(current: Option<Host>, d: Domain, routes: seq<Route>, probe: bool): Host {
    var wildcard := IsWildcard(d.hostname);
    match current
    case None => Host(routes, d.email, !d.active, !wildcard, probe)
    case Some(c) =>
      var joined := c.(routes := c.routes + routes);
      var settled := if wildcard then joined
        else joined.(email := d.email, fallback := !d.active, exact := true, probe := false);
      if routes != [] then settled.(probe := false) else settled
  }

  /** A wildcard row's routes that are served on `h`. */
  function RoutesTo(routes: seq<Route>, hostname: string, h: string): seq<Route> {
    if routes == [] then []
    else
      var last := routes[|routes| - 1];
      RoutesTo(routes[..|routes| - 1], hostname, h) +
      if ResolveRouteHostname(hostname, last.subdomain) == Some(h) then [last] else []
  }

  /** A host's entry after a wildcard row's routes. */
  function AfterRoutes(current: Option<Host>, d: Domain, routes: seq<Route>, h: string): Option<Host> {
    if routes == [] then current
    else
      var before, last := AfterRoutes(current, d, routes[..|routes| - 1], h), routes[|routes| - 1];
      if ResolveRouteHostname(d.hostname, last.subdomain) == Some(h) then Some(Added(before, d, [last], false))
      else before
  }

  /** A host's entry after one row. */
  function AfterDomain(current: Option<Host>, d: Domain, h: string): Option<Host> {
    var routes := ServiceRoutes(d.routes);
    if !IsWildcard(d.hostname) then
      if d.hostname == h then Some(Added(current, d, routes, false)) else current
    else
      var routed := AfterRoutes(current, d, routes, h);
      var probed := if routed.None? && ProbeHostname(d.hostname) == Some(h) then Some(Added(None, d, [], true))
        else routed;
      if probed.None? && d.siteySubdomainsEnabled && PanelHostname(d.hostname) == h then
        Some(Added(None, d, [], false))
      else probed
  }

  /** A host's entry after all rows, in order. */
  function AfterDomains(domains: seq<Domain>, h: string): Option<Host> {
    if domains == [] then None
    else AfterDomain(AfterDomains(domains[..|domains| - 1], h), domains[|domains| - 1], h)
  }

  function Add(hosts: map<string, Host>, host: string, d: Domain, routes: seq<Route>, probe: bool): map<string, Host> {
    hosts[host := Added(Get(hosts, host), d, routes, probe)]
  }

  method AddWildcard(before: map<string, Host>, d: Domain) returns (hosts: map<string, Host>)
    requires IsWildcard(d.hostname)
    ensures forall h :: Get(hosts, h) == AfterDomain(Get(before, h), d, h)
  {
    hide Added, ResolveRouteHostname, ProbeHostname, PanelHostname, IsWildcard, ServiceRoutes;
    hosts := before;
    var routes := ServiceRoutes(d.routes);
    for i := 0 to |routes|
      invariant forall h :: Get(hosts, h) == AfterRoutes(Get(before, h), d, routes[..i], h)
    {
      assert routes[..i + 1][..i] == routes[..i];
      var host := ResolveRouteHostname(d.hostname, routes[i].subdomain);
      if host.Some? { hosts := Add(hosts, host.value, d, [routes[i]], false); }
    }
    assert routes[..|routes|] == routes;
    var probeHost := ProbeHostname(d.hostname);
    if probeHost.Some? && probeHost.value !in hosts { hosts := Add(hosts, probeHost.value, d, [], true); }
    var panelHost := PanelHostname(d.hostname);
    if d.siteySubdomainsEnabled && panelHost !in hosts { hosts := Add(hosts, panelHost, d, [], false); }
  }

  method GroupHosts(domains: seq<Domain>) returns (hosts: map<string, Host>)
    ensures forall h :: Get(hosts, h) == AfterDomains(domains, h)
  {
    hosts := map[];
    for i := 0 to |domains|
      invariant forall h :: Get(hosts, h) == AfterDomains(domains[..i], h)
    {
      assert domains[..i + 1][..i] == domains[..i];
      var d := domains[i];
      if IsWildcard(d.hostname) {
        hosts := AddWildcard(hosts, d);
      } else {
        hosts := Add(hosts, d.hostname, d, ServiceRoutes(d.routes), false);
      }
    }
    assert domains[..|domains|] == domains;
  }

  // ---- What an entry means ---------------------------------------------------------

  /** A row's active routes that are served on `h`. */
  function RowRoutes(d: Domain, h: string): seq<Route> {
    RoutesTo(ServiceRoutes(d.routes), d.hostname, h)
  }

  function AllRoutes(domains: seq<Domain>, h: string): seq<Route> {
    if domains == [] then [] else AllRoutes(domains[..|domains| - 1], h) + RowRoutes(domains[|domains| - 1], h)
  }

  predicate IsPanel(d: Domain, h: string) {
    IsWildcard(d.hostname) && d.siteySubdomainsEnabled && PanelHostname(d.hostname) == h
  }

  /** A wildcard row covers `h` with a route, with its probe host or with its panel host. */
  predicate Covers(d: Domain, h: string) {
    IsWildcard(d.hostname) && (RowRoutes(d, h) != [] || ProbeHostname(d.hostname) == Some(h) || IsPanel(d, h))
  }

  /** The row whose hostname `h` is; the last one, should there be several. */
  function ExactRow(domains: seq<Domain>, h: string): (r: Option<Domain>)
    ensures r.Some? ==> r.value in domains && r.value.hostname == h && !IsWildcard(h)
    ensures r.None? && !IsWildcard(h) ==> forall d <- domains :: d.hostname != h
  {
    if domains == [] then None
    else
      var last := domains[|domains| - 1];
      if last.hostname == h && !IsWildcard(h) then Some(last) else ExactRow(domains[..|domains| - 1], h)
  }

  /** The first wildcard row that covers `h`. */
  function WildRow(domains: seq<Domain>, h: string): (r: Option<Domain>)
    ensures r.Some? ==> r.value in domains && Covers(r.value, h)
    ensures r.None? ==> forall d <- domains :: !Covers(d, h)
  {
    if domains == [] then None
    else
      var earlier := WildRow(domains[..|domains| - 1], h);
      if earlier.Some? then earlier
      else if Covers(domains[|domains| - 1], h) then Some(domains[|domains| - 1])
      else None
  }

  /**
   A host's entry. Its routes are all active routes served on it. Its settings are those of
   its own row, or else of the wildcard row that covers it. It is only probed when nothing
   else is there.
   */
  function HostOf(domains: seq<Domain>, h: string): Option<Host> {
    var exact, wild, routes := ExactRow(domains, h), WildRow(domains, h), AllRoutes(domains, h);
    if exact.Some? then Some(Host(routes, exact.value.email, !exact.value.active, true, false))
    else if wild.Some? then
      Some(Host(routes, wild.value.email, !wild.value.active, false,
                routes == [] && ProbeHostname(wild.value.hostname) == Some(h)))
    else None
  }

  // ---- The loop computes it --------------------------------------------------------

  /** A row's routes are added one by one to the same effect as all at once. */
  lemma {:induction false} RoutesAtOnce(current: Option<Host>, d: Domain, routes: seq<Route>, h: string)
    requires IsWildcard(d.hostname)
    ensures var to := RoutesTo(routes, d.hostname, h);
      AfterRoutes(current, d, routes, h) == if to == [] then current else Some(Added(current, d, to, false))
    decreases |routes|
  {
    hide ResolveRouteHostname, IsWildcard;
    if routes != [] {
      var init := routes[..|routes| - 1];
      RoutesAtOnce(current, d, init, h);
      var to, last := RoutesTo(init, d.hostname, h), routes[|routes| - 1];
      assert to + [] == to && [] + [last] == [last];
      if current.Some? { assert current.value.routes + (to + [last]) == current.value.routes + to + [last]; }
    }
  }

  /** An exact row serves all its active routes on its own hostname. */
  lemma {:induction false} ExactRoutes(d: Domain, routes: seq<Route>, h: string)
    requires !IsWildcard(d.hostname)
    ensures RoutesTo(routes, d.hostname, h) == if d.hostname == h then routes else []
    decreases |routes|
  {
    if routes != [] {
      ExactRoutes(d, routes[..|routes| - 1], h);
    }
  }

  /** Rows that do not touch `h` bring it no route. */
  lemma {:induction false} NoRoutes(domains: seq<Domain>, h: string)
    requires ExactRow(domains, h).None? && WildRow(domains, h).None?
    ensures AllRoutes(domains, h) == []
    decreases |domains|
  {
    if domains != [] {
      NoRoutes(domains[..|domains| - 1], h);
      var last := domains[|domains| - 1];
      if !IsWildcard(last.hostname) { ExactRoutes(last, ServiceRoutes(last.routes), h); }
    }
  }

  lemma AppendNothing(a: seq<Route>, b: seq<Route>)
    ensures a + [] == a && [] + b == b
  {
  }

  lemma ExactStep(domains: seq<Domain>, d: Domain, h: string)
    requires !IsWildcard(d.hostname)
    ensures HostOf(domains + [d], h) == AfterDomain(HostOf(domains, h), d, h)
  {
    hide RoutesTo, ServiceRoutes, IsWildcard;
    assert (domains + [d])[..|domains|] == domains;
    ExactRoutes(d, ServiceRoutes(d.routes), h);
    AppendNothing(AllRoutes(domains, h), RowRoutes(d, h));
    if ExactRow(domains, h).None? && WildRow(domains, h).None? { NoRoutes(domains, h); }
  }

  lemma WildStep(domains: seq<Domain>, d: Domain, h: string)
    requires IsWildcard(d.hostname)
    ensures HostOf(domains + [d], h) == AfterDomain(HostOf(domains, h), d, h)
  {
    hide RoutesTo, ServiceRoutes, AfterRoutes, IsWildcard, ProbeHostname, PanelHostname;
    assert (domains + [d])[..|domains|] == domains;
    RoutesAtOnce(HostOf(domains, h), d, ServiceRoutes(d.routes), h);
    AppendNothing(AllRoutes(domains, h), RowRoutes(d, h));
    if ExactRow(domains, h).None? && WildRow(domains, h).None? { NoRoutes(domains, h); }
  }

  /** The loop, whatever rows it is given, leaves exactly these entries. */
  lemma {:induction false} LoopComputesHosts(domains: seq<Domain>, h: string)
    ensures AfterDomains(domains, h) == HostOf(domains, h)
    decreases |domains|
  {
    hide AfterDomain, HostOf;
    if domains == [] {
      assert HostOf([], h) == None by { NoHosts(h); }
    } else {
      var init, d := domains[..|domains| - 1], domains[|domains| - 1];
      LoopComputesHosts(init, h);
      assert init + [d] == domains;
      if IsWildcard(d.hostname) { WildStep(init, d, h); } else { ExactStep(init, d, h); }
    }
  }

  lemma NoHosts(h: string)
    ensures HostOf([], h) == None
  {
  }

  // ---- The order of the rows does not matter ---------------------------------------

  /** Rows with one hostname are one row. */
  ghost predicate DistinctHostnames(domains: seq<Domain>) {
    forall i, j :: 0 <= i < |domains| && 0 <= j < |domains| && domains[i].hostname == domains[j].hostname ==>
      domains[i] == domains[j]
  }

  /** A stored wildcard row: its hostname is normalised and its subdomains are single labels. */
  ghost predicate Plain(d: Domain) {
    IsWildcard(d.hostname) ==>
      && SanitizeDnsName(d.hostname) == d.hostname
      && forall i :: 0 <= i < |d.routes| ==> '.' !in Label(d.routes[i].subdomain)
  }

  lemma {:induction false} ServedRoutes(routes: seq<Route>, r: Route)
    ensures r in ServiceRoutes(routes) <==> r in routes && Served(r)
    decreases |routes|
  {
    if routes != [] {
      ServedRoutes(routes[..|routes| - 1], r);
      assert routes == routes[..|routes| - 1] + [routes[|routes| - 1]];
    }
  }

  lemma {:induction false} RoutedRoutes(routes: seq<Route>, hostname: string, h: string, r: Route)
    ensures r in RoutesTo(routes, hostname, h) <==>
            r in routes && ResolveRouteHostname(hostname, r.subdomain) == Some(h)
    decreases |routes|
  {
    hide ResolveRouteHostname;
    if routes != [] {
      RoutedRoutes(routes[..|routes| - 1], hostname, h, r);
      assert routes == routes[..|routes| - 1] + [routes[|routes| - 1]];
    }
  }

  lemma RowRoutesMean(d: Domain, h: string, r: Route)
    ensures r in RowRoutes(d, h) <==>
              r in d.routes && Served(r) && ResolveRouteHostname(d.hostname, r.subdomain) == Some(h)
  {
    RoutedRoutes(ServiceRoutes(d.routes), d.hostname, h, r);
    ServedRoutes(d.routes, r);
  }

  lemma RoutedName(d: Domain, r: Route, h: string)
    requires Plain(d) && IsWildcard(d.hostname) && r in RowRoutes(d, h)
    ensures '.' !in Label(r.subdomain) && h == Label(r.subdomain) + "." + d.hostname[2..]
  {
    RowRoutesMean(d, h, r);
    hide Label, RowRoutes;
  }

  /** A wildcard row covers only hosts one label below its base. */
  lemma CoveredName(d: Domain, h: string) returns (name: string)
    requires Plain(d) && Covers(d, h)
    ensures '.' !in name && h == name + "." + d.hostname[2..]
  {
    hide RowRoutes, SanitizeDnsName, Label;
    if RowRoutes(d, h) != [] {
      name := Label(RowRoutes(d, h)[0].subdomain);
      RoutedName(d, RowRoutes(d, h)[0], h);
    } else if ProbeHostname(d.hostname) == Some(h) {
      name := "sitey-dns-check";
      assert "sitey-dns-check." == name + ".";
    } else {
      name := "sitey";
      assert "sitey." == name + ".";
    }
  }

  lemma FirstDot(a: string, x: string, b: string, y: string)
    requires '.' !in a && '.' !in b && a + "." + x == b + "." + y
    ensures a == b && x == y
  {
    var s := a + "." + x;
    assert s == a + ("." + x) && s == b + ("." + y);
    IndexOver(a, "." + x, '.');
    IndexOver(b, "." + y, '.');
    assert IndexOfChar("." + x, '.') == IndexOfChar("." + y, '.') == 0;
    hide IndexOfChar;
    assert a == s[..|a|] && b == (b + "." + y)[..|b|];
    assert x == s[|a| + 1..] && y == (b + "." + y)[|b| + 1..];
  }

  lemma CoverIsWild(d: Domain, h: string)
    requires Covers(d, h)
    ensures IsWildcard(d.hostname)
  {
  }

  /** So no two wildcard rows cover one host. */
  lemma OneCover(d: Domain, e: Domain, h: string)
    requires Plain(d) && Plain(e) && Covers(d, h) && Covers(e, h)
    ensures d.hostname == e.hostname
  {
    hide Plain, Covers;
    CoverIsWild(d, h);
    CoverIsWild(e, h);
    var a := CoveredName(d, h);
    var b := CoveredName(e, h);
    FirstDot(a, d.hostname[2..], b, e.hostname[2..]);
    assert d.hostname == "*." + d.hostname[2..] && e.hostname == "*." + e.hostname[2..];
  }

  lemma {:induction false} AllRoutesAppend(a: seq<Domain>, b: seq<Domain>, h: string)
    ensures AllRoutes(a + b, h) == AllRoutes(a, h) + AllRoutes(b, h)
    decreases |b|
  {
    hide RowRoutes;
    if b == [] {
      assert a + b == a;
    } else {
      AllRoutesAppend(a, b[..|b| - 1], h);
      assert AllRoutes(a, h) + (AllRoutes(b[..|b| - 1], h) + RowRoutes(b[|b| - 1], h))
          == AllRoutes(a, h) + AllRoutes(b[..|b| - 1], h) + RowRoutes(b[|b| - 1], h);
      assert (a + b)[..|a + b| - 1] == a + b[..|b| - 1];
    }
  }

  lemma RemoveRow(domains: seq<Domain>, k: nat, h: string)
    requires k < |domains|
    ensures multiset(AllRoutes(domains, h))
         == multiset(AllRoutes(domains[..k] + domains[k + 1..], h)) + multiset(RowRoutes(domains[k], h))
  {
    var a, d, b := domains[..k], domains[k], domains[k + 1..];
    assert domains == a + [d] + b;
    assert AllRoutes([d], h) == RowRoutes(d, h) by { assert [d][..0] == []; AppendNothing([], RowRoutes(d, h)); }
    hide AllRoutes, RowRoutes;
    AllRoutesAppend(a + [d], b, h);
    AllRoutesAppend(a, [d], h);
    AllRoutesAppend(a, b, h);
  }

  /** Where the last row went. */
  lemma Elsewhere(domains: seq<Domain>, other: seq<Domain>) returns (k: nat)
    requires multiset(domains) == multiset(other) && domains != []
    ensures k < |other| && other[k] == domains[|domains| - 1]
    ensures multiset(domains[..|domains| - 1]) == multiset(other[..k] + other[k + 1..])
  {
    var init, last := domains[..|domains| - 1], domains[|domains| - 1];
    assert domains == init + [last];
    assert last in multiset(other);
    k :| 0 <= k < |other| && other[k] == last;
    var a, b := other[..k], other[k + 1..];
    assert other == a + [last] + b;
    Cancel(multiset(init), multiset(a + b), last);
  }

  lemma Cancel(m: multiset<Domain>, n: multiset<Domain>, d: Domain)
    requires m + multiset{d} == n + multiset{d}
    ensures m == n
  {
    assert m == m + multiset{d} - multiset{d} && n == n + multiset{d} - multiset{d};
  }

  lemma {:induction false} RoutesPermute(domains: seq<Domain>, other: seq<Domain>, h: string)
    requires multiset(domains) == multiset(other)
    ensures multiset(AllRoutes(domains, h)) == multiset(AllRoutes(other, h))
    decreases |domains|
  {
    hide RowRoutes;
    if domains == [] {
      assert |multiset(other)| == 0;
      assert other == [];
    } else {
      var init, last := domains[..|domains| - 1], domains[|domains| - 1];
      var k := Elsewhere(domains, other);
      RoutesPermute(init, other[..k] + other[k + 1..], h);
      RemoveRow(other, k, h);
    }
  }

  lemma SameRows(domains: seq<Domain>, other: seq<Domain>, d: Domain)
    requires multiset(domains) == multiset(other)
    ensures d in domains <==> d in other
  {
    assert d in multiset(domains) <==> d in multiset(other);
  }

  lemma ExactPermutes(domains: seq<Domain>, other: seq<Domain>, h: string)
    requires multiset(domains) == multiset(other) && DistinctHostnames(domains)
    ensures ExactRow(domains, h) == ExactRow(other, h)
  {
    var a, b := ExactRow(domains, h), ExactRow(other, h);
    hide ExactRow;
    if a.Some? { SameRows(domains, other, a.value); }
    if b.Some? { SameRows(domains, other, b.value); }
  }

  lemma WildPermutes(domains: seq<Domain>, other: seq<Domain>, h: string)
    requires multiset(domains) == multiset(other) && DistinctHostnames(domains)
    requires forall i :: 0 <= i < |domains| ==> Plain(domains[i])
    ensures WildRow(domains, h) == WildRow(other, h)
  {
    var a, b := WildRow(domains, h), WildRow(other, h);
    hide WildRow, Covers, Plain;
    if a.Some? { SameRows(domains, other, a.value); }
    if b.Some? { SameRows(domains, other, b.value); }
    if a.Some? && b.Some? { OneCover(a.value, b.value, h); }
  }

  /** Entries that differ at most in the order of their routes. */
  predicate SameHost(a: Option<Host>, b: Option<Host>) {
    match (a, b)
    case (None, None) => true
    case (Some(x), Some(y)) => x.(routes := []) == y.(routes := []) && multiset(x.routes) == multiset(y.routes)
    case _ => false
  }

  /**
   Grouping is confluent: however the rows are ordered, every host gets the same settings,
   the same flags and the same routes.
   */
  lemma GroupingIsConfluent(domains: seq<Domain>, other: seq<Domain>, h: string)
    requires multiset(domains) == multiset(other) && DistinctHostnames(domains)
    requires forall i :: 0 <= i < |domains| ==> Plain(domains[i])
    ensures SameHost(AfterDomains(domains, h), AfterDomains(other, h))
  {
    LoopComputesHosts(domains, h);
    LoopComputesHosts(other, h);
    ExactPermutes(domains, other, h);
    WildPermutes(domains, other, h);
    RoutesPermute(domains, other, h);
    hide AfterDomains, ExactRow, WildRow, AllRoutes, ProbeHostname, Plain;
    BothEmpty(AllRoutes(domains, h), AllRoutes(other, h));
    assert SameHost(HostOf(domains, h), HostOf(other, h));
  }

  lemma BothEmpty(a: seq<Route>, b: seq<Route>)
    requires multiset(a) == multiset(b)
    ensures a == [] <==> b == []
  {
    assert |multiset(a)| == |a| && |multiset(b)| == |b|;
  }

  // ---- When the order of the rows shows ----------------------------------------------

  /** The wildcard rows that cover `h` all give it the same settings. */
  ghost predicate CoversAgree(domains: seq<Domain>, h: string) {
    forall d, e :: d in domains && e in domains && Covers(d, h) && Covers(e, h) ==>
      && d.email == e.email && d.active == e.active
      && (AllRoutes(domains, h) == [] ==>
            (ProbeHostname(d.hostname) == Some(h) <==> ProbeHostname(e.hostname) == Some(h)))
  }

  /** Whatever the order of the rows, the host has the same entry. */
  ghost predicate OrderFree(domains: seq<Domain>, h: string) {
    forall other: seq<Domain> :: multiset(other) == multiset(domains) ==>
      SameHost(AfterDomains(domains, h), AfterDomains(other, h))
  }

  lemma ExactOrderFree(domains: seq<Domain>, other: seq<Domain>, h: string)
    requires multiset(other) == multiset(domains) && DistinctHostnames(domains) && ExactRow(domains, h).Some?
    ensures SameHost(AfterDomains(domains, h), AfterDomains(other, h))
  {
    LoopComputesHosts(domains, h);
    LoopComputesHosts(other, h);
    ExactPermutes(domains, other, h);
    RoutesPermute(domains, other, h);
    hide AfterDomains, ExactRow, WildRow, AllRoutes, ProbeHostname;
    assert SameHost(HostOf(domains, h), HostOf(other, h));
  }

  lemma AgreeOrderFree(domains: seq<Domain>, other: seq<Domain>, h: string)
    requires multiset(other) == multiset(domains) && DistinctHostnames(domains)
    requires ExactRow(domains, h).None? && CoversAgree(domains, h)
    ensures SameHost(AfterDomains(domains, h), AfterDomains(other, h))
  {
    LoopComputesHosts(domains, h);
    LoopComputesHosts(other, h);
    ExactPermutes(domains, other, h);
    RoutesPermute(domains, other, h);
    var a, b := WildRow(domains, h), WildRow(other, h);
    hide AfterDomains, ExactRow, WildRow, AllRoutes, ProbeHostname, Covers;
    BothEmpty(AllRoutes(domains, h), AllRoutes(other, h));
    if a.Some? { SameRows(domains, other, a.value); }
    if b.Some? { SameRows(domains, other, b.value); }
    assert SameHost(HostOf(domains, h), HostOf(other, h));
  }

  function ToFront(domains: seq<Domain>, k: nat): (r: seq<Domain>)
    requires k < |domains|
    ensures multiset(r) == multiset(domains)
  {
    assert domains == domains[..k] + [domains[k]] + domains[k + 1..];
    [domains[k]] + domains[..k] + domains[k + 1..]
  }

  /** With the row at `k` in front, a host without a row of its own gets that row's settings. */
  lemma FrontDecides(domains: seq<Domain>, k: nat, h: string)
    requires k < |domains| && DistinctHostnames(domains) && ExactRow(domains, h).None? && Covers(domains[k], h)
    ensures var entry, d := AfterDomains(ToFront(domains, k), h), domains[k];
      && entry.Some? && entry.value.email == d.email && entry.value.fallback == !d.active
      && (AllRoutes(domains, h) == [] ==> (entry.value.probe <==> ProbeHostname(d.hostname) == Some(h)))
  {
    var other := ToFront(domains, k);
    LoopComputesHosts(other, h);
    ExactPermutes(domains, other, h);
    RoutesPermute(domains, other, h);
    FirstOfAll(other, 0, h);
    hide AfterDomains, ExactRow, WildRow, AllRoutes, ProbeHostname, Covers;
    BothEmpty(AllRoutes(domains, h), AllRoutes(other, h));
  }

  /** Two entries that are both the same as a third have the same settings. */
  lemma SameSettings(x: Option<Host>, a: Option<Host>, b: Option<Host>)
    requires SameHost(x, a) && SameHost(x, b) && a.Some?
    ensures b.Some? && a.value.email == b.value.email && a.value.fallback == b.value.fallback
            && a.value.probe == b.value.probe
  {
  }

  /**
   For distinct hostnames, whatever their subdomains: the order of the rows does not show
   on a host if and only if it has a row of its own, or all wildcard rows that cover it
   agree on its settings.
   */
  lemma OrderFreeExactly(domains: seq<Domain>, h: string)
    requires DistinctHostnames(domains)
    ensures OrderFree(domains, h) <==> ExactRow(domains, h).Some? || CoversAgree(domains, h)
  {
    hide AfterDomains, ExactRow, AllRoutes, ProbeHostname, Covers, SameHost, ToFront;
    if ExactRow(domains, h).Some? || CoversAgree(domains, h) {
      forall other: seq<Domain> | multiset(other) == multiset(domains)
        ensures SameHost(AfterDomains(domains, h), AfterDomains(other, h))
      {
        if ExactRow(domains, h).Some? { ExactOrderFree(domains, other, h); } else { AgreeOrderFree(domains, other, h); }
      }
    }
    if OrderFree(domains, h) && ExactRow(domains, h).None? {
      forall d, e | d in domains && e in domains && Covers(d, h) && Covers(e, h)
        ensures d.email == e.email && d.active == e.active
        ensures AllRoutes(domains, h) == [] ==>
                  (ProbeHostname(d.hostname) == Some(h) <==> ProbeHostname(e.hostname) == Some(h))
      {
        var j :| 0 <= j < |domains| && domains[j] == d;
        var k :| 0 <= k < |domains| && domains[k] == e;
        FrontDecides(domains, j, h);
        FrontDecides(domains, k, h);
        SameSettings(AfterDomains(domains, h),
                     AfterDomains(ToFront(domains, j), h), AfterDomains(ToFront(domains, k), h));
      }
    }
  }

  /** Rows that do not cover `h` decide nothing: the first that does is the one found. */
  lemma {:induction false} FirstOfAll(domains: seq<Domain>, k: nat, h: string)
    requires k < |domains| && Covers(domains[k], h)
    requires forall j :: 0 <= j < k ==> !Covers(domains[j], h)
    ensures WildRow(domains, h) == Some(domains[k])
    decreases |domains|
  {
    hide Covers;
    var init := domains[..|domains| - 1];
    if k < |init| {
      FirstOfAll(init, k, h);
    } else {
      assert forall j :: 0 <= j < |init| ==> init[j] == domains[j];
    }
  }

  /** A host without a row of its own gets the settings of the first wildcard row that covers it. */
  lemma FirstCoverDecides(domains: seq<Domain>, k: nat, h: string)
    requires k < |domains| && Covers(domains[k], h) && ExactRow(domains, h).None?
    requires forall j :: 0 <= j < k ==> !Covers(domains[j], h)
    ensures var entry, d := AfterDomains(domains, h), domains[k];
      && entry.Some? && entry.value.email == d.email && entry.value.fallback == !d.active && !entry.value.exact
      && (entry.value.probe <==> AllRoutes(domains, h) == [] && ProbeHostname(d.hostname) == Some(h))
  {
    LoopComputesHosts(domains, h);
    FirstOfAll(domains, k, h);
    hide AfterDomains, ExactRow, WildRow, Covers, ProbeHostname, AllRoutes;
  }

  // ---- Every route lands once ------------------------------------------------------

  lemma {:induction false} RoutesFrom(domains: seq<Domain>, h: string, r: Route)
    ensures r in AllRoutes(domains, h) <==> exists d :: d in domains && r in RowRoutes(d, h)
    decreases |domains|
  {
    hide RowRoutes;
    if domains != [] {
      var init, last := domains[..|domains| - 1], domains[|domains| - 1];
      RoutesFrom(init, h, r);
      assert domains == init + [last];
    }
  }

  /** Routes are rows of their own: one route belongs to one Domain row. */
  ghost predicate RoutesApart(domains: seq<Domain>) {
    forall i, j, r :: 0 <= i < |domains| && 0 <= j < |domains| && r in domains[i].routes && r in domains[j].routes ==>
      domains[i] == domains[j]
  }

  /**
   A route of a row is served on a host exactly when it is active and that host is its
   effective one: on that host, and on no other.
   */
  lemma RouteLandsOnItsHost(domains: seq<Domain>, d: Domain, r: Route, h: string)
    requires d in domains && r in d.routes && RoutesApart(domains)
    ensures (AfterDomains(domains, h).Some? && r in AfterDomains(domains, h).value.routes)
      <==> (Served(r) && ResolveRouteHostname(d.hostname, r.subdomain) == Some(h))
  {
    LoopComputesHosts(domains, h);
    RoutesFrom(domains, h, r);
    RowRoutesMean(d, h, r);
    hide AfterDomains, ExactRow, WildRow, ResolveRouteHostname, AllRoutes, RowRoutes;
    if r in AllRoutes(domains, h) {
      var e :| e in domains && r in RowRoutes(e, h);
      RowRoutesMean(e, h, r);
    }
    if ExactRow(domains, h).None? && WildRow(domains, h).None? { NoRoutes(domains, h); }
  }

  /** A hostname with a row of its own gets that row's settings, whatever wildcard rows cover it. */
  lemma ExactRowWins(domains: seq<Domain>, d: Domain)
    requires d in domains && DistinctHostnames(domains) && !IsWildcard(d.hostname)
    ensures var entry := AfterDomains(domains, d.hostname);
      && entry.Some? && entry.value.email == d.email && entry.value.fallback == !d.active
      && entry.value.exact && !entry.value.probe
  {
    LoopComputesHosts(domains, d.hostname);
    hide AfterDomains, AllRoutes, WildRow, ExactRow;
  }

  /** Every wildcard row has its probe host, and its panel host if that is enabled. */
  lemma WildcardHosts(domains: seq<Domain>, d: Domain)
    requires d in domains && IsWildcard(d.hostname) && SanitizeDnsName(d.hostname) == d.hostname
    ensures AfterDomains(domains, "sitey-dns-check." + d.hostname[2..]).Some?
    ensures d.siteySubdomainsEnabled ==> AfterDomains(domains, "sitey." + d.hostname[2..]).Some?
  {
    LoopComputesHosts(domains, "sitey-dns-check." + d.hostname[2..]);
    LoopComputesHosts(domains, "sitey." + d.hostname[2..]);
    hide AfterDomains, AllRoutes, WildRow, ExactRow, RowRoutes;
    assert ProbeHostname(d.hostname) == Some("sitey-dns-check." + d.hostname[2..]);
    assert Covers(d, "sitey-dns-check." + d.hostname[2..]);
    assert d.siteySubdomainsEnabled ==> Covers(d, "sitey." + d.hostname[2..]);
  }
}
