/**
 What is served of the stored routes: the tables that routes.ts and routers/services.ts
 keep (`Routes`) as `buildCaddyConfig` of caddy.ts loads them (`HostGroups`).

 The results hold of every reachable state: no two routes of a host share a path or differ
 in their scheme, each active route is served on its effective host, and the order in
 which the Domain rows come does not matter.
 */
module Serving {
  import opened Wrappers
  import opened Text
  import R = RouteStrings
  import T = Routes
  import G = HostGroups

  /** The columns of a Domain row that route identity does not depend on. */
  datatype Info = Info(email: string, active: bool, siteySubdomainsEnabled: bool)

  /** A route as it is loaded, with its service; `up` are the active services. */
  function RouteOf(row: T.Row, up: set<nat>): G.Route {
    G.Route(row.id, row.subdomain, row.pathPrefix, row.httpOnly, Some(G.Service(row.service, row.service in up)))
  }

  function RoutesOf(rows: seq<T.Row>, id: nat, up: set<nat>): seq<G.Route> {
    if rows == [] then []
    else (if rows[0].domainId == Some(id) then [RouteOf(rows[0], up)] else []) + RoutesOf(rows[1..], id, up)
  }

  /** A Domain row with its routes. */
  function DomainOf(db: T.Db, id: nat, info: map<nat, Info>, up: set<nat>): G.Domain
    requires id in db.domains && id in info
  {
    G.Domain(db.domains[id], info[id].email, info[id].active, info[id].siteySubdomainsEnabled,
             RoutesOf(db.rows, id, up))
  }

  /** `ids` lists the Domain rows, each once. */
  ghost predicate Lists(db: T.Db, info: map<nat, Info>, ids: seq<nat>) {
    && (forall id :: id in ids <==> id in db.domains)
    && (forall id :: id in ids ==> id in info)
    && (forall i, j :: 0 <= i < j < |ids| ==> ids[i] != ids[j])
  }

  /** What the query for the Domain rows returns. */
  function Loaded(db: T.Db, info: map<nat, Info>, up: set<nat>, ids: seq<nat>): (r: seq<G.Domain>)
    requires forall id :: id in ids ==> id in db.domains && id in info
    ensures |r| == |ids| && forall i :: 0 <= i < |r| ==> r[i] == DomainOf(db, ids[i], info, up)
  {
    seq(|ids|, i requires 0 <= i < |ids| => DomainOf(db, ids[i], info, up))
  }

  lemma {:induction false} InRoutesOf(rows: seq<T.Row>, id: nat, up: set<nat>, r: G.Route)
    ensures r in RoutesOf(rows, id, up) <==>
            exists row :: row in rows && row.domainId == Some(id) && RouteOf(row, up) == r
    decreases |rows|
  {
    if rows != [] {
      InRoutesOf(rows[1..], id, up, r);
      assert rows == [rows[0]] + rows[1..];
    }
  }

  // ---- Stored rows are plain -------------------------------------------------------

  lemma LowerHost(base: string)
    requires R.HostShaped(base)
    ensures G.SanitizeDnsName("*." + base) == "*." + base
  {
    var s := "*." + base;
    LastOfHost(base);
    StarIsNoSpace();
    assert s[0] == '*' && s[|s| - 1] == base[|base| - 1];
    hide R.HostShaped, IsSpace, Trim, ToLower;
    TrimTight(s);
    LowerStar(base);
  }

  lemma LastOfHost(base: string)
    requires R.HostShaped(base)
    ensures base != "" && !IsSpace(base[|base| - 1]) && base[|base| - 1] != '.'
  {
    R.HostCharIsPlain(base[|base| - 1]);
    hide IsSpace;
  }

  lemma StarIsNoSpace()
    ensures !IsSpace('*')
  {
  }

  lemma LowerStar(base: string)
    requires R.HostShaped(base)
    ensures ToLower("*." + base) == "*." + base
  {
    R.LowerFixed(base);
    R.LowerAppend("*.", base);
    assert ToLower("*.") == "*.";
  }

  lemma StoredHostname(hostname: string)
    requires R.IsDomainHostname(hostname) && IsWildcard(hostname)
    ensures G.SanitizeDnsName(hostname) == hostname
  {
    hide R.IsHostname, G.SanitizeDnsName;
    R.HostnameShaped(hostname[2..]);
    LowerHost(hostname[2..]);
    assert hostname == "*." + hostname[2..];
  }

  lemma StoredLabel(sub: string)
    requires R.IsLabel(sub)
    ensures G.Label(sub) == sub && '.' !in sub && sub != ""
  {
    T.LabelHasNoDot(sub);
    R.LabelFixed(sub);
  }

  /** The name the generator gives a stored route is the one it was stored under. */
  lemma SameHostname(db: T.Db, row: T.Row, up: set<nat>)
    requires T.GoodRow(db.domains, row) && row.domainId.Some?
    ensures row.domainId.value in db.domains
    ensures G.ResolveRouteHostname(db.domains[row.domainId.value], RouteOf(row, up).subdomain) ==
            Some(T.HostOf(db.domains, row))
  {
    hide R.IsLabel, G.Label;
    if IsWildcard(db.domains[row.domainId.value]) { StoredLabel(row.subdomain); }
  }

  /** A route of a loaded row is a stored row of that domain. */
  lemma LoadedRoute(db: T.Db, id: nat, info: map<nat, Info>, up: set<nat>, r: G.Route) returns (row: T.Row)
    requires id in db.domains && id in info && r in DomainOf(db, id, info, up).routes
    ensures row in db.rows && row.domainId == Some(id) && RouteOf(row, up) == r
  {
    InRoutesOf(db.rows, id, up, r);
    row :| row in db.rows && row.domainId == Some(id) && RouteOf(row, up) == r;
  }

  lemma PlainRow(db: T.Db, id: nat, info: map<nat, Info>, up: set<nat>)
    requires T.GoodDomains(db) && T.GoodRows(db) && id in db.domains && id in info
    ensures G.Plain(DomainOf(db, id, info, up))
  {
    hide R.IsDomainHostname, R.IsLabel, RoutesOf, RouteOf, G.SanitizeDnsName, G.Label;
    var d := DomainOf(db, id, info, up);
    if IsWildcard(d.hostname) {
      StoredHostname(d.hostname);
      forall i | 0 <= i < |d.routes| ensures '.' !in G.Label(d.routes[i].subdomain) {
        var row := LoadedRoute(db, id, info, up, d.routes[i]);
        assert T.GoodRow(db.domains, row);
        StoredLabel(row.subdomain);
        Subdomain(row, up);
      }
    }
  }

  lemma Subdomain(row: T.Row, up: set<nat>)
    ensures var r := RouteOf(row, up); r.id == row.id && r.subdomain == row.subdomain && r.pathPrefix == row.pathPrefix
    ensures RouteOf(row, up).httpOnly == row.httpOnly && (G.Served(RouteOf(row, up)) <==> row.service in up)
  {
  }

  /** What grouping asks of its rows, for any good state. */
  lemma GoodIsPlain(db: T.Db, info: map<nat, Info>, up: set<nat>, ids: seq<nat>)
    requires T.GoodDomains(db) && T.GoodRows(db) && Lists(db, info, ids)
    ensures var rows := Loaded(db, info, up, ids);
      G.DistinctHostnames(rows) && forall i :: 0 <= i < |rows| ==> G.Plain(rows[i])
  {
    hide R.IsDomainHostname, RoutesOf, G.Plain;
    forall i | 0 <= i < |ids| ensures G.Plain(Loaded(db, info, up, ids)[i]) { PlainRow(db, ids[i], info, up); }
  }

  // ---- Every reachable state -------------------------------------------------------

  /**
   In every reachable state the loaded Domain rows have distinct hostnames, and below a
   wildcard only single labels: no two wildcard rows ever cover one host.
   */
  lemma ReachableIsPlain(events: seq<T.Event>, info: map<nat, Info>, up: set<nat>, ids: seq<nat>)
    requires Lists(T.Run(events).db, info, ids)
    ensures var rows := Loaded(T.Run(events).db, info, up, ids);
      G.DistinctHostnames(rows) && forall i :: 0 <= i < |rows| ==> G.Plain(rows[i])
  {
    hide T.Run, T.GoodDomains, T.GoodRows, T.DomainlessUnique, T.Ordered, Lists;
    T.TablesStayGood(events);
    GoodIsPlain(T.Run(events).db, info, up, ids);
  }

  /** So in every reachable state, the order in which the rows come does not show on any host. */
  lemma ReachableOrderFree(events: seq<T.Event>, info: map<nat, Info>, up: set<nat>, ids: seq<nat>, h: string)
    requires Lists(T.Run(events).db, info, ids)
    ensures G.OrderFree(Loaded(T.Run(events).db, info, up, ids), h)
  {
    hide T.Run, G.Plain, G.SameHost, G.AfterDomains;
    ReachableIsPlain(events, info, up, ids);
    var rows := Loaded(T.Run(events).db, info, up, ids);
    forall other: seq<G.Domain> | multiset(other) == multiset(rows)
      ensures G.SameHost(G.AfterDomains(rows, h), G.AfterDomains(other, h))
    {
      G.GroupingIsConfluent(rows, other, h);
    }
  }

  /** A route on a host comes from a stored row with that host. */
  lemma ServedRow(db: T.Db, info: map<nat, Info>, up: set<nat>, ids: seq<nat>, h: string, r: G.Route)
      returns (row: T.Row)
    requires T.GoodRows(db) && Lists(db, info, ids)
    requires r in G.AllRoutes(Loaded(db, info, up, ids), h)
    ensures row in db.rows && row.domainId.Some? && RouteOf(row, up) == r
    ensures T.HostOf(db.domains, row) == h && row.service in up
  {
    hide T.HostOf, RoutesOf, RouteOf, G.ResolveRouteHostname, G.RowRoutes, G.AllRoutes;
    var rows := Loaded(db, info, up, ids);
    G.RoutesFrom(rows, h, r);
    var d :| d in rows && r in G.RowRoutes(d, h);
    G.RowRoutesMean(d, h, r);
    var i :| 0 <= i < |rows| && rows[i] == d;
    row := LoadedRoute(db, ids[i], info, up, r);
    assert T.GoodRow(db.domains, row);
    SameHostname(db, row, up);
    Subdomain(row, up);
  }

  /**
   In every reachable state the routes of a generated host have different paths and one
   scheme: whatever domains they came from, Caddy is never given two handlers for one path.
   */
  lemma HostRoutesApart(events: seq<T.Event>, info: map<nat, Info>, up: set<nat>, ids: seq<nat>, h: string,
                        a: G.Route, b: G.Route)
    requires T.Tidy(events) && Lists(T.Run(events).db, info, ids)
    requires var entry := G.AfterDomains(Loaded(T.Run(events).db, info, up, ids), h);
      entry.Some? && a in entry.value.routes && b in entry.value.routes
    ensures a.httpOnly == b.httpOnly && (a.pathPrefix == b.pathPrefix ==> a == b)
  {
    var db := T.Run(events).db;
    var rows := Loaded(db, info, up, ids);
    T.RoutesStayApart(events);
    G.LoopComputesHosts(rows, h);
    EntryRoutes(rows, h);
    hide T.Run, T.HostOf, RouteOf, G.AfterDomains, G.AllRoutes, T.GoodDomains, T.GoodRows, T.Ordered, T.Tidy, Lists;
    var x := ServedRow(db, info, up, ids, h, a);
    var y := ServedRow(db, info, up, ids, h, b);
    Subdomain(x, up);
    Subdomain(y, up);
  }

  lemma EntryRoutes(rows: seq<G.Domain>, h: string)
    ensures G.HostOf(rows, h).Some? ==> G.HostOf(rows, h).value.routes == G.AllRoutes(rows, h)
    ensures G.HostOf(rows, h).None? ==> G.AllRoutes(rows, h) == []
  {
    if G.HostOf(rows, h).None? { G.NoRoutes(rows, h); }
  }

  /** In every reachable state a stored route is served exactly on its own host, and only if its service is active. */
  lemma StoredIsServed(events: seq<T.Event>, info: map<nat, Info>, up: set<nat>, ids: seq<nat>, h: string, row: T.Row)
    requires Lists(T.Run(events).db, info, ids)
    requires row in T.Run(events).db.rows && row.domainId.Some?
    ensures var db := T.Run(events).db; var entry := G.AfterDomains(Loaded(db, info, up, ids), h);
      (entry.Some? && RouteOf(row, up) in entry.value.routes) <==> (row.service in up && T.HostOf(db.domains, row) == h)
  {
    var db := T.Run(events).db;
    var rows := Loaded(db, info, up, ids);
    T.TablesStayGood(events);
    G.LoopComputesHosts(rows, h);
    EntryRoutes(rows, h);
    assert T.GoodRow(db.domains, row);
    hide T.Run, T.HostOf, RouteOf, G.AfterDomains, G.AllRoutes, T.GoodDomains, T.GoodRows, T.Tidy;
    hide G.ResolveRouteHostname, G.HostOf;
    if RouteOf(row, up) in G.AllRoutes(rows, h) {
      var found := ServedRow(db, info, up, ids, h, RouteOf(row, up));
      Subdomain(row, up);
      Subdomain(found, up);
      T.OneId(db.rows, db.nextRow, row, found);
    }
    if row.service in up && T.HostOf(db.domains, row) == h { RowIsServed(db, info, up, ids, h, row); }
  }

  lemma RowIsServed(db: T.Db, info: map<nat, Info>, up: set<nat>, ids: seq<nat>, h: string, row: T.Row)
    requires T.GoodRow(db.domains, row) && Lists(db, info, ids) && row in db.rows && row.domainId.Some?
    requires row.service in up && T.HostOf(db.domains, row) == h
    ensures RouteOf(row, up) in G.AllRoutes(Loaded(db, info, up, ids), h)
  {
    var rows, id, r := Loaded(db, info, up, ids), row.domainId.value, RouteOf(row, up);
    SameHostname(db, row, up);
    hide T.HostOf, RoutesOf, RouteOf, G.ResolveRouteHostname, G.RowRoutes, G.AllRoutes;
    assert id in db.domains && id in ids;
    var i :| 0 <= i < |ids| && ids[i] == id;
    InRoutesOf(db.rows, id, up, r);
    Subdomain(row, up);
    G.RowRoutesMean(rows[i], h, r);
    G.RoutesFrom(rows, h, r);
    assert rows[i] in rows;
  }

  /** In every reachable state a hostname with a row of its own gets that row's email and certificate status. */
  lemma OwnSettings(events: seq<T.Event>, info: map<nat, Info>, up: set<nat>, ids: seq<nat>, id: nat)
    requires Lists(T.Run(events).db, info, ids) && id in ids && !IsWildcard(T.Run(events).db.domains[id])
    ensures var db := T.Run(events).db; var entry := G.AfterDomains(Loaded(db, info, up, ids), db.domains[id]);
      && entry.Some? && entry.value.exact && entry.value.email == info[id].email
      && entry.value.fallback == !info[id].active
  {
    var db := T.Run(events).db;
    var rows := Loaded(db, info, up, ids);
    ReachableIsPlain(events, info, up, ids);
    var i :| 0 <= i < |ids| && ids[i] == id;
    hide T.Run, G.AfterDomains, G.Plain, RoutesOf;
    G.ExactRowWins(rows, rows[i]);
  }
}
