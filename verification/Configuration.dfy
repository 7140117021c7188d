/**
 From the stored tables to the tokens of the file (`buildCaddyConfig`, caddy.ts): routes as
 `Routes` keeps them, loaded by `Serving`, grouped by `HostGroups`, rendered and merged by
 `Generated`.
 */
module Configuration {
  import opened Wrappers
  import opened Text
  import opened CaddyLexer
  import opened CaddyRender
  import opened CaddySite
  import opened CaddyFile
  import opened CaddyRoute
  import opened Generated
  import B = BlockMerge
  import G = HostGroups
  import R = RouteStrings
  import S = Serving
  import T = Routes

  // ---- Entries of hosts --------------------------------------------------------------

  /** Each route has a service, and that is one of these. */
  ghost predicate Known(routes: seq<G.Route>, services: map<nat, Service>) {
    forall i :: 0 <= i < |routes| ==> routes[i].service.Some? && routes[i].service.value.id in services
  }

  function RoutesFor(routes: seq<G.Route>, services: map<nat, Service>): (r: seq<Route>)
    requires Known(routes, services)
    ensures |r| == |routes|
    ensures forall i :: 0 <= i < |r| ==> r[i] == Route(routes[i].pathPrefix, services[routes[i].service.value.id])
  {
    seq(|routes|, i requires 0 <= i < |routes| => Route(routes[i].pathPrefix, services[routes[i].service.value.id]))
  }

  /** How the loop over `hosts` writes a host. */
  function EntryFor(name: string, host: G.Host, services: map<nat, Service>): Entry
    requires Known(host.routes, services)
  {
    Entry(name, RoutesFor(host.routes, services), host.email, host.fallback,
          exists i :: 0 <= i < |host.routes| && host.routes[i].httpOnly,
          host.probe && host.routes == [] && !host.exact)
  }

  ghost predicate AllKnown(rows: seq<G.Domain>, services: map<nat, Service>) {
    forall h: string :: G.AfterDomains(rows, h).Some? ==> Known(G.AfterDomains(rows, h).value.routes, services)
  }

  /** The entries that are written: those of all hosts but the panel's own, in the order of `names`. */
  ghost predicate Named(names: seq<string>, rows: seq<G.Domain>, own: Option<string>) {
    && (forall h: string :: h in names <==> G.AfterDomains(rows, h).Some? && own != Some(h))
    && (forall i, j :: 0 <= i < j < |names| ==> names[i] != names[j])
  }

  ghost function Entries(names: seq<string>, rows: seq<G.Domain>, own: Option<string>, services: map<nat, Service>)
      : (r: seq<Entry>)
    requires AllKnown(rows, services) && Named(names, rows, own)
    ensures |r| == |names|
    ensures forall i :: 0 <= i < |r| ==>
              (names[i] in names && r[i] == EntryFor(names[i], G.AfterDomains(rows, names[i]).value, services))
  {
    seq(|names|, i requires 0 <= i < |names| =>
      assert names[i] in names;
      EntryFor(names[i], G.AfterDomains(rows, names[i]).value, services))
  }

  function WithPrefix(routes: seq<Route>): seq<Route> {
    if routes == [] then [] else (if routes[0].pathPrefix != "" then [routes[0]] else []) + WithPrefix(routes[1..])
  }

  /** The path-prefix routes of the panel's own host, which go into the management sites. */
  ghost function MgmtRoutes(rows: seq<G.Domain>, own: Option<string>, services: map<nat, Service>): seq<Route>
    requires AllKnown(rows, services)
  {
    if own.Some? && G.AfterDomains(rows, own.value).Some? then
      WithPrefix(RoutesFor(G.AfterDomains(rows, own.value).value.routes, services))
    else []
  }

  // ---- Stored data is made of words --------------------------------------------------

  lemma PathTame(p: string)
    requires R.IsPath(p) && p != ""
    ensures p[0] == '/' && IsTame(p)
  {
    R.PathChars(p);
    hide R.IsPath;
    assert p[0] == '/' by { R.PathStart(p); }
  }

  lemma HostWord(h: string)
    requires R.HostShaped(h)
    ensures GoodWord(h) && !B.IsHttp(h)
  {
    assert |h| > 4 ==> R.IsHostChar(h[4]);
    assert "http://"[4] == ':';
  }

  /** Every host of the map is a hostname: of a row, of a route, or one label below a wildcard. */
  lemma HostIsHostname(db: T.Db, info: map<nat, S.Info>, up: set<nat>, ids: seq<nat>, h: string)
    requires T.GoodTables(db) && S.Lists(db, info, ids)
    requires G.AfterDomains(S.Loaded(db, info, up, ids), h).Some?
    ensures R.IsHostname(h)
  {
    var rows := S.Loaded(db, info, up, ids);
    G.LoopComputesHosts(rows, h);
    var exact, wild := G.ExactRow(rows, h), G.WildRow(rows, h);
    hide G.AfterDomains, G.ExactRow, G.WildRow, G.Covers, R.IsHostname, T.Ordered, T.GoodRows, T.DomainlessUnique;
    hide G.AllRoutes;
    if exact.Some? {
      var i :| 0 <= i < |rows| && rows[i] == exact.value;
      assert R.IsDomainHostname(db.domains[ids[i]]);
    } else {
      var i :| 0 <= i < |rows| && rows[i] == wild.value;
      CoveredHostname(db, info, up, ids, i, h);
    }
  }

  lemma CoveredHostname(db: T.Db, info: map<nat, S.Info>, up: set<nat>, ids: seq<nat>, i: nat, h: string)
    requires T.GoodTables(db) && S.Lists(db, info, ids)
    requires i < |ids| && G.Covers(S.Loaded(db, info, up, ids)[i], h)
    ensures R.IsHostname(h)
  {
    var d := S.Loaded(db, info, up, ids)[i];
    assert R.IsDomainHostname(d.hostname) && G.Plain(d) by {
      S.PlainRow(db, ids[i], info, up);
      hide G.Plain, T.Ordered, R.IsHostname;
    }
    hide S.Loaded, T.GoodTables, R.IsHostname, G.Covers, R.IsLabel;
    G.CoverIsWild(d, h);
    var name := CoveringLabel(db, info, up, ids, i, h);
    T.LabelBelowHost(name, d.hostname[2..]);
  }

  /** A wildcard row covers only hosts one label below it. */
  lemma CoveringLabel(db: T.Db, info: map<nat, S.Info>, up: set<nat>, ids: seq<nat>, i: nat, h: string)
      returns (name: string)
    requires T.GoodTables(db) && S.Lists(db, info, ids)
    requires i < |ids| && G.Covers(S.Loaded(db, info, up, ids)[i], h)
    ensures R.IsLabel(name) && h == name + "." + S.Loaded(db, info, up, ids)[i].hostname[2..]
  {
    var d := S.Loaded(db, info, up, ids)[i];
    hide G.RowRoutes, R.IsHostname, S.RoutesOf, T.Ordered, T.DomainlessUnique, S.RouteOf, R.IsDomainHostname;
    if G.RowRoutes(d, h) != [] {
      var r := G.RowRoutes(d, h)[0];
      G.RowRoutesMean(d, h, r);
      var row := S.LoadedRoute(db, ids[i], info, up, r);
      assert T.GoodRow(db.domains, row);
      S.Subdomain(row, up);
      S.StoredLabel(row.subdomain);
      name := row.subdomain;
    } else {
      S.StoredHostname(d.hostname);
      if G.ProbeHostname(d.hostname) == Some(h) {
        name := "sitey-dns-check";
        assert "sitey-dns-check." == name + ".";
      } else {
        name := "sitey";
        assert "sitey." == name + ".";
      }
      PlainLabels();
    }
  }

  lemma PlainLabels()
    ensures R.IsLabel("sitey-dns-check") && R.IsLabel("sitey")
  {
  }

  // ---- Good tables give good entries -------------------------------------------------

  /** What the rest of the database has to be: services for all routes, and emails that stay in their block. */
  ghost predicate GoodColumns(db: T.Db, info: map<nat, S.Info>, services: map<nat, Service>) {
    && (forall row :: row in db.rows ==> row.service in services)
    && (forall id :: id in services ==> GoodService(services[id]))
    && (forall id :: id in info ==> Trim(info[id].email) != "" ==> GoodEmail(Trim(info[id].email)))
  }

  lemma RoutesKnown(db: T.Db, info: map<nat, S.Info>, up: set<nat>, ids: seq<nat>, services: map<nat, Service>)
    requires T.GoodTables(db) && S.Lists(db, info, ids) && GoodColumns(db, info, services)
    ensures AllKnown(S.Loaded(db, info, up, ids), services)
  {
    var rows := S.Loaded(db, info, up, ids);
    hide G.AfterDomains, T.Ordered, T.GoodDomains, T.DomainlessUnique, T.GoodRows, S.Lists, S.Loaded, GoodService, Trim;
    forall h: string | G.AfterDomains(rows, h).Some? ensures Known(G.AfterDomains(rows, h).value.routes, services) {
      G.LoopComputesHosts(rows, h);
      S.EntryRoutes(rows, h);
      var routes := G.AfterDomains(rows, h).value.routes;
      hide G.HostOf;
      forall i | 0 <= i < |routes|
        ensures routes[i].service.Some? && routes[i].service.value.id in services
      {
        var row := S.ServedRow(db, info, up, ids, h, routes[i]);
      }
    }
  }

  lemma RoutesGood(db: T.Db, info: map<nat, S.Info>, up: set<nat>, ids: seq<nat>, services: map<nat, Service>,
                   h: string)
    requires T.GoodTables(db) && S.Lists(db, info, ids) && GoodColumns(db, info, services)
    requires G.AfterDomains(S.Loaded(db, info, up, ids), h).Some?
    requires Known(G.AfterDomains(S.Loaded(db, info, up, ids), h).value.routes, services)
    ensures GoodRoutes(RoutesFor(G.AfterDomains(S.Loaded(db, info, up, ids), h).value.routes, services))
  {
    var rows := S.Loaded(db, info, up, ids);
    hide G.AfterDomains, T.Ordered, T.GoodDomains, T.DomainlessUnique, T.HostOf, S.Lists, S.Loaded, GoodService, Trim;
    hide R.IsPath, R.IsLabel, IsTame;
    G.LoopComputesHosts(rows, h);
    S.EntryRoutes(rows, h);
    var routes := G.AfterDomains(rows, h).value.routes;
    hide G.HostOf;
    forall i | 0 <= i < |routes| ensures GoodRoute(RoutesFor(routes, services)[i]) {
      var row := S.ServedRow(db, info, up, ids, h, routes[i]);
      assert T.GoodRow(db.domains, row) && routes[i].pathPrefix == row.pathPrefix;
      if row.pathPrefix != "" { PathTame(row.pathPrefix); }
    }
  }

  /** A host's email is that of one of the rows. */
  lemma HostEmail(db: T.Db, info: map<nat, S.Info>, up: set<nat>, ids: seq<nat>, services: map<nat, Service>, h: string)
    requires S.Lists(db, info, ids) && GoodColumns(db, info, services)
    requires G.AfterDomains(S.Loaded(db, info, up, ids), h).Some?
    ensures var email := Trim(G.AfterDomains(S.Loaded(db, info, up, ids), h).value.email);
            email != "" ==> GoodEmail(email)
  {
    var rows := S.Loaded(db, info, up, ids);
    G.LoopComputesHosts(rows, h);
    var exact, wild := G.ExactRow(rows, h), G.WildRow(rows, h);
    hide G.AfterDomains, G.ExactRow, G.WildRow, G.Covers, G.AllRoutes, Trim, GoodWord, GoodService;
    var d := if exact.Some? then exact.value else wild.value;
    var i :| 0 <= i < |rows| && rows[i] == d;
    assert ids[i] in ids;
  }

  lemma EntryGood(db: T.Db, info: map<nat, S.Info>, up: set<nat>, ids: seq<nat>, services: map<nat, Service>, h: string)
    requires T.GoodTables(db) && S.Lists(db, info, ids) && GoodColumns(db, info, services)
    requires G.AfterDomains(S.Loaded(db, info, up, ids), h).Some?
    requires Known(G.AfterDomains(S.Loaded(db, info, up, ids), h).value.routes, services)
    ensures GoodEntry(EntryFor(h, G.AfterDomains(S.Loaded(db, info, up, ids), h).value, services)) && !B.IsHttp(h)
  {
    HostIsHostname(db, info, up, ids, h);
    R.HostnameShaped(h);
    HostWord(h);
    hide T.GoodTables, S.Lists, GoodColumns, G.AfterDomains, S.Loaded, R.IsHostname, R.HostShaped, GoodWord;
    hide GoodRoutes, Trim;
    RoutesGood(db, info, up, ids, services, h);
    HostEmail(db, info, up, ids, services, h);
  }

  lemma {:induction false} WithPrefixGood(routes: seq<Route>)
    requires GoodRoutes(routes)
    ensures GoodRoutes(WithPrefix(routes))
  {
    hide GoodRoute;
    if routes != [] { WithPrefixGood(routes[1..]); }
  }

  lemma EntriesGood(db: T.Db, info: map<nat, S.Info>, up: set<nat>, ids: seq<nat>, services: map<nat, Service>,
                    own: Option<string>, names: seq<string>, panel: Panel)
    requires T.GoodTables(db) && S.Lists(db, info, ids) && GoodColumns(db, info, services)
    requires AllKnown(S.Loaded(db, info, up, ids), services) && Named(names, S.Loaded(db, info, up, ids), own)
    ensures var entries := Entries(names, S.Loaded(db, info, up, ids), own, services);
      && (forall k :: 0 <= k < |entries| ==> GoodEntry(entries[k]))
      && B.HostNames(Hosts(entries, panel))
    ensures GoodRoutes(MgmtRoutes(S.Loaded(db, info, up, ids), own, services))
  {
    var rows := S.Loaded(db, info, up, ids);
    hide T.GoodTables, S.Lists, GoodColumns, G.AfterDomains, S.Loaded, GoodEntry, GoodRoutes, B.IsHttp, Known, SiteBody;
    forall k | 0 <= k < |names|
      ensures GoodEntry(Entries(names, rows, own, services)[k]) && !B.IsHttp(names[k])
    {
      assert names[k] in names;
      EntryGood(db, info, up, ids, services, names[k]);
    }
    if own.Some? && G.AfterDomains(rows, own.value).Some? {
      RoutesGood(db, info, up, ids, services, own.value);
      WithPrefixGood(RoutesFor(G.AfterDomains(rows, own.value).value.routes, services));
    }
  }

  // ---- The file of every reachable state ---------------------------------------------

  /** The panel's own site, if it has a name. */
  function OwnSite(own: Option<string>, email: string): Option<Site> {
    if own.Some? then Some(Site([own.value], email, [])) else None
  }

  /** The text of the site blocks for these tables. */
  ghost function FileText(rows: seq<G.Domain>, services: map<nat, Service>, own: Option<string>, email: string,
                          names: seq<string>, panel: Panel): string
    requires AllKnown(rows, services) && Named(names, rows, own)
  {
    var entries := Entries(names, rows, own, services);
    var sites := Sites(Blocks(entries, panel), entries, panel);
    Join(Lines(SiteBlocks(AllSites(MgmtRoutes(rows, own, services), panel, OwnSite(own, email), sites)), 0))
  }

  /**
   In every reachable state of the tables, with fragments that are refused or stay in their
   block: the file tokenizes; its top level is the management sites and then one block for
   each group of hosts that are served alike, in order; and every host but the panel's own
   finds its own body and email under its label.
   */
  lemma ReachableFile(events: seq<T.Event>, info: map<nat, S.Info>, up: set<nat>, ids: seq<nat>,
                      services: map<nat, Service>, own: Option<string>, email: string, names: seq<string>, panel: Panel)
    requires S.Lists(T.Run(events).db, info, ids) && GoodColumns(T.Run(events).db, info, services) && GoodPanel(panel)
    requires (own.Some? ==> GoodWord(own.value)) && (email != "" ==> GoodEmail(email))
    requires Named(names, S.Loaded(T.Run(events).db, info, up, ids), own)
    ensures var rows := S.Loaded(T.Run(events).db, info, up, ids);
      && AllKnown(rows, services)
      && var entries := Entries(names, rows, own, services);
         var all := AllSites(MgmtRoutes(rows, own, services), panel, OwnSite(own, email),
                             Sites(Blocks(entries, panel), entries, panel));
         var lexed := LexOf(FileText(rows, services, own, email, names, panel));
         && lexed.Tokens? && TopLevel(ShapesOf(lexed.tokens), 0) == SiteHeaders(all)
         && ShapesOf(lexed.tokens) == FileShapes(MgmtRoutes(rows, own, services), panel, OwnSite(own, email),
                                                 Sites(Blocks(entries, panel), entries, panel))
         && forall i, name: string :: 0 <= i < |names| && B.Serving(HostOf(entries[i], panel), name).Some? ==>
              B.Lookup(Blocks(entries, panel), name) == B.Serving(HostOf(entries[i], panel), name)
  {
    var db := T.Run(events).db;
    var rows := S.Loaded(db, info, up, ids);
    T.TablesStayGood(events);
    RoutesKnown(db, info, up, ids, services);
    EntriesGood(db, info, up, ids, services, own, names, panel);
    OwnGood(own, email);
    hide T.Run, T.GoodTables, S.Lists, S.Loaded, GoodColumns, AllKnown, Named, MgmtRoutes, GoodEntry, GoodRoutes;
    hide GoodPanel, GoodSite, AllSites, SiteBlocks, Lines, LexOf, TopLevel, SiteHeaders, Blocks, Sites;
    hide B.Serving, B.Lookup, HostOf, FileShapes;
    FileServesHosts(MgmtRoutes(rows, own, services), panel, OwnSite(own, email), Entries(names, rows, own, services));
  }

  lemma OwnGood(own: Option<string>, email: string)
    requires (own.Some? ==> GoodWord(own.value)) && (email != "" ==> GoodEmail(email))
    ensures OwnSite(own, email).Some? ==> GoodSite(OwnSite(own, email).value)
  {
    hide GoodWord;
  }

  /** In that file every stored route of an active service is among the routes of its own host. */
  lemma StoredIsWritten(events: seq<T.Event>, info: map<nat, S.Info>, up: set<nat>, ids: seq<nat>,
                        services: map<nat, Service>, own: Option<string>, names: seq<string>, row: T.Row)
    requires S.Lists(T.Run(events).db, info, ids) && GoodColumns(T.Run(events).db, info, services)
    requires Named(names, S.Loaded(T.Run(events).db, info, up, ids), own)
    requires row in T.Run(events).db.rows && row.domainId.Some? && row.service in up
    requires own != Some(T.HostOf(T.Run(events).db.domains, row))
    ensures var rows := S.Loaded(T.Run(events).db, info, up, ids);
      && AllKnown(rows, services)
      && exists i :: 0 <= i < |names| && names[i] == T.HostOf(T.Run(events).db.domains, row)
           && Route(row.pathPrefix, services[row.service]) in Entries(names, rows, own, services)[i].routes
  {
    var db := T.Run(events).db;
    var rows, h := S.Loaded(db, info, up, ids), T.HostOf(db.domains, row);
    T.TablesStayGood(events);
    RoutesKnown(db, info, up, ids, services);
    S.StoredIsServed(events, info, up, ids, h, row);
    S.Subdomain(row, up);
    hide T.Run, T.GoodTables, S.Lists, S.Loaded, T.HostOf, G.AfterDomains, GoodService, Trim;
    var routes := G.AfterDomains(rows, h).value.routes;
    var j :| 0 <= j < |routes| && routes[j] == S.RouteOf(row, up);
    assert h in names;
    var i :| 0 <= i < |names| && names[i] == h;
    assert Entries(names, rows, own, services)[i].routes[j] == Route(row.pathPrefix, services[row.service]);
  }

  /** What the file says of a host with these settings and routes. */
  ghost predicate SaysOf(sites: seq<Site>, h: string, host: G.Host, services: map<nat, Service>, panel: Panel)
    requires Known(host.routes, services)
  {
    var http, email, body := "http://" + h, Trim(host.email), BodyShapes(RoutesFor(host.routes, services), panel);
    var plain := exists i :: 0 <= i < |host.routes| && host.routes[i].httpOnly;
    if host.probe && !host.exact && host.routes == [] then
      WrittenAs(sites, h, email, Plains(["respond", "204"])) && Unwritten(sites, http)
    else
      && (if plain then Unwritten(sites, h) else WrittenAs(sites, h, email, body))
      && (if plain || host.fallback then WrittenAs(sites, http, "", body) else Unwritten(sites, http))
  }

  /**
   In the file of every reachable state each host but the panel's own has, under its name,
   its email and its routes' tokens, unless one of its routes is for plain HTTP; these under
   its plain-HTTP label as well if one is or it has no certificate yet; and an answer to
   probes if that is all it is for.
   */
  lemma HostWritten(events: seq<T.Event>, info: map<nat, S.Info>, up: set<nat>, ids: seq<nat>,
                    services: map<nat, Service>, own: Option<string>, names: seq<string>, panel: Panel, h: string)
    requires S.Lists(T.Run(events).db, info, ids) && GoodColumns(T.Run(events).db, info, services) && GoodPanel(panel)
    requires Named(names, S.Loaded(T.Run(events).db, info, up, ids), own)
    requires G.AfterDomains(S.Loaded(T.Run(events).db, info, up, ids), h).Some? && own != Some(h)
    ensures var rows := S.Loaded(T.Run(events).db, info, up, ids);
      && AllKnown(rows, services)
      && var entries := Entries(names, rows, own, services);
         SaysOf(Sites(Blocks(entries, panel), entries, panel), h, G.AfterDomains(rows, h).value, services, panel)
  {
    var db := T.Run(events).db;
    var rows := S.Loaded(db, info, up, ids);
    T.TablesStayGood(events);
    RoutesKnown(db, info, up, ids, services);
    EntriesGood(db, info, up, ids, services, own, names, panel);
    assert h in names;
    var i :| 0 <= i < |names| && names[i] == h;
    hide T.Run, T.GoodTables, S.Lists, S.Loaded, GoodColumns, MgmtRoutes, GoodEntry, G.AfterDomains, Named;
    hide GoodPanel, Blocks, Sites, B.HostNames, SaysOf;
    EntrySays(Entries(names, rows, own, services), i, h, G.AfterDomains(rows, h).value, services, panel);
  }

  lemma EntrySays(entries: seq<Entry>, i: nat, h: string, host: G.Host, services: map<nat, Service>, panel: Panel)
    requires (forall k :: 0 <= k < |entries| ==> GoodEntry(entries[k])) && GoodPanel(panel) && i < |entries|
    requires B.HostNames(Hosts(entries, panel)) && Known(host.routes, services)
    requires entries[i] == EntryFor(h, host, services)
    ensures SaysOf(Sites(Blocks(entries, panel), entries, panel), h, host, services, panel)
  {
    hide GoodEntry, GoodPanel, Blocks, Sites, B.HostNames, WrittenAs, Unwritten, BodyShapes, Plains, Trim;
    HostTokens(entries, i, panel);
  }

  /** The management sites have the routes of the panel's own host that are under a path, in order, and no others. */
  lemma ManagementRoutes(rows: seq<G.Domain>, own: Option<string>, services: map<nat, Service>)
    requires AllKnown(rows, services)
    ensures own.None? || G.AfterDomains(rows, own.value).None? ==> MgmtRoutes(rows, own, services) == []
    ensures own.Some? && G.AfterDomains(rows, own.value).Some? ==>
              var routes := RoutesFor(G.AfterDomains(rows, own.value).value.routes, services);
              && (forall r :: r in MgmtRoutes(rows, own, services) <==> r in routes && r.pathPrefix != "")
              && ((forall r <- routes :: r.pathPrefix != "") ==> MgmtRoutes(rows, own, services) == routes)
  {
    hide G.AfterDomains;
    if own.Some? && G.AfterDomains(rows, own.value).Some? {
      WithPrefixMeans(RoutesFor(G.AfterDomains(rows, own.value).value.routes, services));
    }
  }

  lemma {:induction false} WithPrefixMeans(routes: seq<Route>)
    ensures forall r :: r in WithPrefix(routes) <==> r in routes && r.pathPrefix != ""
    ensures (forall r <- routes :: r.pathPrefix != "") ==> WithPrefix(routes) == routes
  {
    if routes != [] {
      WithPrefixMeans(routes[1..]);
      assert routes == [routes[0]] + routes[1..];
    }
  }

  /** A stored route for plain HTTP keeps its host off HTTPS, and its host is served under the plain-HTTP label. */
  lemma PlainRouteWritten(events: seq<T.Event>, info: map<nat, S.Info>, up: set<nat>, ids: seq<nat>,
                          services: map<nat, Service>, own: Option<string>, names: seq<string>, panel: Panel,
                          row: T.Row)
    requires S.Lists(T.Run(events).db, info, ids) && GoodColumns(T.Run(events).db, info, services) && GoodPanel(panel)
    requires Named(names, S.Loaded(T.Run(events).db, info, up, ids), own)
    requires row in T.Run(events).db.rows && row.domainId.Some? && row.service in up && row.httpOnly
    requires own != Some(T.HostOf(T.Run(events).db.domains, row))
    ensures var rows, h := S.Loaded(T.Run(events).db, info, up, ids), T.HostOf(T.Run(events).db.domains, row);
      && AllKnown(rows, services) && G.AfterDomains(rows, h).Some?
      && var entries, host := Entries(names, rows, own, services), G.AfterDomains(rows, h).value;
         var sites := Sites(Blocks(entries, panel), entries, panel);
         && Unwritten(sites, h)
         && WrittenAs(sites, "http://" + h, "", BodyShapes(RoutesFor(host.routes, services), panel))
  {
    var rows, h := S.Loaded(T.Run(events).db, info, up, ids), T.HostOf(T.Run(events).db.domains, row);
    S.StoredIsServed(events, info, up, ids, h, row);
    S.Subdomain(row, up);
    hide T.Run, T.GoodTables, S.Lists, S.Loaded, GoodColumns, MgmtRoutes, G.AfterDomains, Named, GoodPanel, T.HostOf;
    hide SaysOf, S.RouteOf;
    HostWritten(events, info, up, ids, services, own, names, panel, h);
    var host := G.AfterDomains(rows, h).value;
    var j :| 0 <= j < |host.routes| && host.routes[j] == S.RouteOf(row, up);
    PlainSays(Sites(Blocks(Entries(names, rows, own, services), panel), Entries(names, rows, own, services), panel), h,
              host, j, services, panel);
  }

  lemma PlainSays(sites: seq<Site>, h: string, host: G.Host, j: nat, services: map<nat, Service>, panel: Panel)
    requires Known(host.routes, services) && SaysOf(sites, h, host, services, panel)
    requires j < |host.routes| && host.routes[j].httpOnly
    ensures Unwritten(sites, h)
    ensures WrittenAs(sites, "http://" + h, "", BodyShapes(RoutesFor(host.routes, services), panel))
  {
    hide WrittenAs, Unwritten, BodyShapes, Plains, Trim;
  }
}
