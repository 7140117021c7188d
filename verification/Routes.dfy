/**
 Route identity (services/routes.ts, and `addRoute`, `create` and `removeRoute` in
 routers/services.ts).

 A route is identified by its effective host and its path, and one host is served either
 over HTTPS or over plain HTTP. Both are spread over exact and wildcard Domain rows, so no
 index can enforce them: the check and the insert in one transaction have to. Routes are
 resolved before that transaction, so domains may come and go between; `pending` holds what
 has been resolved and not yet inserted.
 */
module Routes {
  import opened Wrappers
  import opened Text
  import R = RouteStrings

  datatype Row = Row(id: nat, service: nat, domainId: Option<nat>, subdomain: string, pathPrefix: string,
                     httpOnly: bool, protected: bool)

  /** The Domain, Service and ServiceRoute tables. Ids are never given twice. */
  datatype Db = Db(domains: map<nat, string>, services: set<nat>, rows: seq<Row>,
                   nextDomain: nat, nextService: nat, nextRow: nat)

  /** What `resolveRouteInput`, or the tuple form, hands to the transaction, with the hostname it saw. */
  datatype Resolved = Resolved(host: string, pathPrefix: string, httpOnly: bool,
                               domainId: nat, hostname: string, subdomain: string)

  datatype Error = Taken | MixedScheme | JustTaken | Gone

  datatype Outcome = Created(row: Row) | AlreadyExisted(row: Row) | Refused(error: Error)

  // ---- The check and the insert ----------------------------------------------------

  /** The `where` of `routesForHost`. */
  predicate IsOn(domains: map<nat, string>, row: Row, host: string) {
    && row.domainId.Some? && row.domainId.value in domains
    && var name := domains[row.domainId.value]; var dot := IndexOfChar(host, '.');
       name == host || (dot < |host| && name == "*." + host[dot + 1..] && row.subdomain == host[..dot])
  }

  function RoutesForHost(domains: map<nat, string>, rows: seq<Row>, host: string): seq<Row> {
    if rows == [] then []
    else (if IsOn(domains, rows[0], host) then [rows[0]] else []) + RoutesForHost(domains, rows[1..], host)
  }

  function FindPath(rows: seq<Row>, path: string): (r: Option<Row>)
    ensures r.Some? ==> r.value in rows && r.value.pathPrefix == path
    ensures r.None? ==> forall row <- rows :: row.pathPrefix != path
  {
    if rows == [] then None else if rows[0].pathPrefix == path then Some(rows[0]) else FindPath(rows[1..], path)
  }

  predicate OtherScheme(rows: seq<Row>, httpOnly: bool) {
    exists i :: 0 <= i < |rows| && rows[i].httpOnly != httpOnly
  }

  /** The unique index on (domainId, subdomain, pathPrefix). */
  predicate Indexed(rows: seq<Row>, domainId: nat, subdomain: string, path: string) {
    exists i :: 0 <= i < |rows| && rows[i].domainId == Some(domainId) && rows[i].subdomain == subdomain
      && rows[i].pathPrefix == path
  }

  function WithRow(db: Db, row: Row): Db {
    db.(rows := db.rows + [row], nextRow := db.nextRow + 1)
  }

  /** What `insertResolvedRoute` answers. */
  function Verdict(db: Db, service: nat, r: Resolved): Outcome {
    var routes := RoutesForHost(db.domains, db.rows, r.host);
    var existing := FindPath(routes, r.pathPrefix);
    if existing.Some? && existing.value.service != service then Refused(Taken)
    else if OtherScheme(routes, r.httpOnly) then Refused(MixedScheme)
    else if existing.Some? then AlreadyExisted(existing.value)
    else if r.domainId !in db.domains || service !in db.services then Refused(Gone)
    else if Indexed(db.rows, r.domainId, r.subdomain, r.pathPrefix) then Refused(JustTaken)
    else Created(Row(db.nextRow, service, Some(r.domainId), r.subdomain, r.pathPrefix, r.httpOnly, false))
  }

  function After(db: Db, outcome: Outcome): Db {
    if outcome.Created? then WithRow(db, outcome.row) else db
  }

  function Insert(db: Db, service: nat, r: Resolved): Db {
    After(db, Verdict(db, service, r))
  }

  function Domainless(rows: seq<Row>): seq<Row> {
    if rows == [] then [] else (if rows[0].domainId.None? then [rows[0]] else []) + Domainless(rows[1..])
  }

  /** What `insertDomainlessRoute` answers. */
  function DomainlessVerdict(db: Db, service: nat, path: string, httpOnly: bool): Outcome {
    var existing := FindPath(Domainless(db.rows), path);
    if existing.Some? then
      if existing.value.service != service then Refused(Taken) else AlreadyExisted(existing.value)
    else if service !in db.services then Refused(Gone)
    else Created(Row(db.nextRow, service, None, "", path, httpOnly, false))
  }

  /** The routes of a new service, in one transaction: the first refusal undoes them all. */
  function InsertAll(db: Db, service: nat, routes: seq<Resolved>): Option<Db> {
    if routes == [] then Some(db)
    else
      var before := InsertAll(db, service, routes[..|routes| - 1]);
      if before.None? || Verdict(before.value, service, routes[|routes| - 1]).Refused? then None
      else Some(Insert(before.value, service, routes[|routes| - 1]))
  }

  function WithService(db: Db): Db {
    db.(services := db.services + {db.nextService}, nextService := db.nextService + 1)
  }

  /** The rows `DELETE` leaves, where `drop` says which go. */
  function Keep(rows: seq<Row>, drop: Row -> bool): seq<Row> {
    if rows == [] then [] else (if drop(rows[0]) then [] else [rows[0]]) + Keep(rows[1..], drop)
  }

  // ---- Resolving -------------------------------------------------------------------

  /** The Domain rows as a list, in some order: `resolveRouteHost` only looks for a hostname. */
  ghost predicate Lists(domains: map<nat, string>, list: seq<R.DomainRow>) {
    forall d: R.DomainRow :: d in list <==> d.id in domains && domains[d.id] == d.hostname
  }

  /** The string form: `resolveRouteInput`. */
  function FromString(input: string, list: seq<R.DomainRow>): Option<Resolved> {
    match R.Parse(input)
    case Bad(_) => None
    case Route(p) =>
      match R.Resolve(p.host, list)
      case None => None
      case Some(m) => Some(Resolved(p.host, p.pathPrefix, p.httpOnly, m.domain.id, m.domain.hostname, m.subdomain))
  }

  /** A subdomain the tuple form goes on with: a label below a wildcard (given or generated), else none. */
  predicate IsSubdomain(hostname: string, subdomain: string) {
    if IsWildcard(hostname) then R.IsLabel(subdomain) else subdomain == ""
  }

  /** The tuple form of `addRoute`: the check will be made on the host that is parsed back. */
  function FromTuple(domains: map<nat, string>, domainId: nat, subdomain: string, prefix: string,
                     httpOnly: bool): Option<Resolved> {
    if domainId !in domains || !IsSubdomain(domains[domainId], subdomain) then None
    else
      var hostname := domains[domainId];
      match R.Parse(R.Written(R.HostOf(hostname, subdomain), prefix, httpOnly))
      case Bad(_) => None
      case Route(p) => Some(Resolved(p.host, p.pathPrefix, httpOnly, domainId, hostname, subdomain))
  }

  // ---- Runs ------------------------------------------------------------------------

  datatype State = State(db: Db, pending: seq<Resolved>)

  /** The service of the control panel, which the server creates before anything else. */
  const PANEL := 0

  /** Its route: no domain, no path, protected. */
  const PANEL_ROUTE := Row(0, PANEL, None, "", "", false, true)

  const FIRST_RUN := State(Db(map[], {PANEL}, [PANEL_ROUTE], 0, 1, 1), [])

  datatype Event =
    | AddDomain(hostname: string)
    | DropDomain(domainId: nat)
    | DropService(service: nat)
    | ResolveString(input: string, list: seq<R.DomainRow>)
    | ResolveTuple(domainId: nat, subdomain: string, prefix: string, httpOnly: bool)
    | InsertPending(service: nat, k: nat)
    | CreateService(ks: seq<nat>)
    | InsertDomainless(service: nat, path: string, httpOnly: bool)
    | RemoveRoute(id: nat)

  function DeleteDomain(db: Db, id: nat): Db {
    db.(domains := db.domains - {id}, rows := Keep(db.rows, (row: Row) => row.domainId == Some(id)))
  }

  /** `delete`, which refuses the protected service; its routes go with a service. */
  function DeleteService(db: Db, id: nat): Db {
    if id == PANEL then db
    else db.(services := db.services - {id}, rows := Keep(db.rows, (row: Row) => row.service == id))
  }

  /** `removeRoute` by id; a protected route stays. */
  function DeleteRow(db: Db, id: nat): Db {
    db.(rows := Keep(db.rows, (row: Row) => row.id == id && !row.protected))
  }

  function CreateDomain(db: Db, hostname: string): Db {
    if !R.IsDomainHostname(hostname) || hostname in db.domains.Values then db
    else db.(domains := db.domains[db.nextDomain := hostname], nextDomain := db.nextDomain + 1)
  }

  function Pick(pending: seq<Resolved>, ks: seq<nat>): seq<Resolved> {
    if ks == [] then []
    else Pick(pending, ks[..|ks| - 1]) + if ks[|ks| - 1] < |pending| then [pending[ks[|ks| - 1]]] else []
  }

  /** `create`: a new service with its initial routes, or nothing at all. */
  function Create(db: Db, routes: seq<Resolved>): Db {
    InsertAll(WithService(db), db.nextService, routes).GetOr(db)
  }

  function Add(pending: seq<Resolved>, r: Option<Resolved>): seq<Resolved> {
    if r.Some? then pending + [r.value] else pending
  }

  ghost function Apply(s: State, e: Event): State {
    match e
    case AddDomain(hostname) => s.(db := CreateDomain(s.db, hostname))
    case DropDomain(id) => s.(db := DeleteDomain(s.db, id))
    case DropService(id) => s.(db := DeleteService(s.db, id))
    case ResolveString(input, list) =>
      if Lists(s.db.domains, list) then s.(pending := Add(s.pending, FromString(input, list))) else s
    case ResolveTuple(id, subdomain, prefix, httpOnly) =>
      s.(pending := Add(s.pending, FromTuple(s.db.domains, id, subdomain, prefix, httpOnly)))
    case InsertPending(service, k) =>
      if k < |s.pending| then s.(db := Insert(s.db, service, s.pending[k])) else s
    case CreateService(ks) => s.(db := Create(s.db, Pick(s.pending, ks)))
    case InsertDomainless(service, path, httpOnly) =>
      s.(db := After(s.db, DomainlessVerdict(s.db, service, path, httpOnly)))
    case RemoveRoute(id) => s.(db := DeleteRow(s.db, id))
  }

  ghost function Run(events: seq<Event>): State {
    if events == [] then FIRST_RUN else Apply(Run(events[..|events| - 1]), events[|events| - 1])
  }

  /** A tuple whose prefix is empty or starts a path: nothing, or a single dot, before its first slash. */
  predicate TidyPrefix(prefix: string) {
    R.Overlap(prefix) == "" || R.Overlap(prefix) == "."
  }

  ghost predicate Tidy(events: seq<Event>) {
    forall i :: 0 <= i < |events| && events[i].ResolveTuple? ==> TidyPrefix(events[i].prefix)
  }

  // ---- Identity --------------------------------------------------------------------

  /** The hostname a domain-backed route is served on. */
  function HostOf(domains: map<nat, string>, row: Row): string {
    if row.domainId.Some? && row.domainId.value in domains then R.HostOf(domains[row.domainId.value], row.subdomain)
    else ""
  }

  /** Below a wildcard, a route has one label of its own. */
  predicate SubOk(hostname: string, subdomain: string) {
    IsWildcard(hostname) ==> R.IsLabel(subdomain)
  }

  ghost predicate GoodDomains(db: Db) {
    && (forall id :: id in db.domains ==> id < db.nextDomain && R.IsDomainHostname(db.domains[id]))
    && (forall i, j :: i in db.domains && j in db.domains && db.domains[i] == db.domains[j] ==> i == j)
  }

  ghost predicate GoodRow(domains: map<nat, string>, row: Row) {
    row.domainId.Some? ==>
      && row.domainId.value in domains && SubOk(domains[row.domainId.value], row.subdomain)
      && R.IsPath(row.pathPrefix)
  }

  ghost predicate GoodRows(db: Db) {
    forall row :: row in db.rows ==> GoodRow(db.domains, row)
  }

  /** No two domain-backed routes share host and path. */
  ghost predicate Unique(db: Db) {
    forall a, b ::
      (a in db.rows && b in db.rows && a.domainId.Some? && b.domainId.Some?
       && HostOf(db.domains, a) == HostOf(db.domains, b) && a.pathPrefix == b.pathPrefix) ==> a == b
  }

  /** All routes of a host agree on plain HTTP. */
  ghost predicate OneScheme(db: Db) {
    forall a, b ::
      (a in db.rows && b in db.rows && a.domainId.Some? && b.domainId.Some?
       && HostOf(db.domains, a) == HostOf(db.domains, b)) ==> a.httpOnly == b.httpOnly
  }

  /** No two routes without a domain share a path. */
  ghost predicate DomainlessUnique(db: Db) {
    forall a, b ::
      (a in db.rows && b in db.rows && a.domainId.None? && b.domainId.None? && a.pathPrefix == b.pathPrefix) ==> a == b
  }

  /** Rows are in the order of their ids, so no row is there twice. */
  ghost predicate Ordered(rows: seq<Row>, next: nat) {
    rows == []
    || (rows[0].id < next && (forall row :: row in rows[1..] ==> rows[0].id < row.id) && Ordered(rows[1..], next))
  }

  /** What the tables keep however routes are named. */
  ghost predicate GoodTables(db: Db) {
    GoodDomains(db) && GoodRows(db) && DomainlessUnique(db) && Ordered(db.rows, db.nextRow)
  }

  ghost predicate Apart(db: Db) {
    Unique(db) && OneScheme(db)
  }

  ghost predicate Inv(db: Db) {
    GoodTables(db) && Apart(db)
  }

  /** What is pending fits its domain, whether or not that is still there. */
  ghost predicate Fits(db: Db, r: Resolved) {
    && R.IsDomainHostname(r.hostname) && SubOk(r.hostname, r.subdomain) && R.IsPath(r.pathPrefix)
    && r.domainId < db.nextDomain
    && (r.domainId in db.domains ==> db.domains[r.domainId] == r.hostname)
  }

  /** It will be inserted under the host it is checked for. */
  ghost predicate ChecksItsHost(r: Resolved) {
    R.IsHostname(r.host) && R.HostOf(r.hostname, r.subdomain) == r.host
  }

  ghost predicate GoodPending(db: Db, r: Resolved) {
    Fits(db, r) && ChecksItsHost(r)
  }

  /** What runs keep; `apart` says whether they only insert routes under the hosts they were checked for. */
  ghost predicate Kept(db: Db, apart: bool) {
    GoodTables(db) && (apart ==> Apart(db))
  }

  ghost predicate KeptPending(db: Db, r: Resolved, apart: bool) {
    Fits(db, r) && (apart ==> ChecksItsHost(r))
  }

  ghost predicate AllGood(s: State, apart: bool) {
    Kept(s.db, apart) && forall k :: 0 <= k < |s.pending| ==> KeptPending(s.db, s.pending[k], apart)
  }

  // ---- The query finds a host's routes ---------------------------------------------

  lemma {:induction false} InRoutesForHost(domains: map<nat, string>, rows: seq<Row>, host: string, row: Row)
    ensures row in RoutesForHost(domains, rows, host) <==> row in rows && IsOn(domains, row, host)
  {
    hide IsOn;
    if rows != [] { InRoutesForHost(domains, rows[1..], host, row); }
  }

  lemma LabelHasNoDot(s: string)
    requires R.IsLabel(s)
    ensures s != "" && '.' !in s
  {
  }

  /** The query by hostname, or by wildcard and label, finds exactly the routes served on the host. */
  lemma OnIffHost(domains: map<nat, string>, row: Row, host: string)
    requires R.IsHostname(host) && GoodRow(domains, row) && row.domainId.Some?
    requires R.IsDomainHostname(domains[row.domainId.value])
    ensures IsOn(domains, row, host) <==> HostOf(domains, row) == host
  {
    var name, sub := domains[row.domainId.value], row.subdomain;
    hide R.IsHostname, R.IsDomainHostname, R.HostShaped, IndexOfChar;
    R.HostnameShaped(host);
    R.NoStar(host);
    if IsWildcard(name) {
      LabelHasNoDot(sub);
      assert name == "*." + name[2..];
      WildcardHost(name[2..], sub, host);
    } else if IndexOfChar(host, '.') < |host| {
      assert "*." <= "*." + host[IndexOfChar(host, '.') + 1..];
    }
  }

  /** One label below a base: the label is what stands before the first dot. */
  lemma WildcardHost(base: string, sub: string, host: string)
    requires '.' !in sub
    ensures var dot := IndexOfChar(host, '.');
      (dot < |host| && "*." + base == "*." + host[dot + 1..] && sub == host[..dot]) <==> sub + "." + base == host
  {
    hide IndexOfChar;
    var dot := IndexOfChar(host, '.');
    if sub + "." + base == host { FirstDot(sub, base); }
    if dot < |host| {
      SameTail(base, host[dot + 1..]);
      CutAtDot(host, dot);
    }
  }

  lemma CutAtDot(host: string, dot: nat)
    requires dot < |host| && host[dot] == '.'
    ensures host[..dot] + "." + host[dot + 1..] == host
  {
  }

  lemma FirstDot(sub: string, base: string)
    requires '.' !in sub
    ensures var host := sub + "." + base; var dot := IndexOfChar(host, '.');
      dot == |sub| < |host| && host[..dot] == sub && host[dot + 1..] == base
  {
    IndexOver(sub, "." + base, '.');
    assert sub + ("." + base) == sub + "." + base;
    assert IndexOfChar("." + base, '.') == 0;
  }

  lemma SameTail(a: string, b: string)
    ensures "*." + a == "*." + b <==> a == b
  {
    assert ("*." + a)[2..] == a && ("*." + b)[2..] == b;
  }

  /** What a creation has checked. */
  lemma CreatedIsFree(db: Db, service: nat, r: Resolved, row: Row)
    requires GoodDomains(db) && GoodRows(db) && R.IsHostname(r.host)
    requires Verdict(db, service, r).Created? && row in db.rows && row.domainId.Some?
             && HostOf(db.domains, row) == r.host
    ensures row.pathPrefix != r.pathPrefix && row.httpOnly == r.httpOnly
  {
    hide IsOn, R.IsHostname, R.IsDomainHostname, RoutesForHost, HostOf, Indexed;
    assert GoodRow(db.domains, row);
    OnIffHost(db.domains, row, r.host);
    InRoutesForHost(db.domains, db.rows, r.host, row);
    SchemeOfMember(RoutesForHost(db.domains, db.rows, r.host), r.httpOnly, row);
  }

  lemma SchemeOfMember(rows: seq<Row>, httpOnly: bool, row: Row)
    requires row in rows && !OtherScheme(rows, httpOnly)
    ensures row.httpOnly == httpOnly
  {
  }

  // ---- Every event keeps the invariant ---------------------------------------------

  lemma {:induction false} OrderedAppend(rows: seq<Row>, row: Row, next: nat)
    requires Ordered(rows, next) && row.id == next
    requires forall r :: r in rows ==> r.id < next
    ensures Ordered(rows + [row], next + 1)
  {
    if rows == [] {
      assert rows + [row] == [row];
    } else {
      assert (rows + [row])[1..] == rows[1..] + [row];
      OrderedAppend(rows[1..], row, next);
    }
  }

  lemma {:induction false} OrderedBelow(rows: seq<Row>, next: nat)
    requires Ordered(rows, next)
    ensures forall r :: r in rows ==> r.id < next
  {
    if rows != [] { OrderedBelow(rows[1..], next); }
  }

  lemma WithRowKeeps(db: Db, row: Row, apart: bool)
    requires Kept(db, apart) && row.id == db.nextRow && GoodRow(db.domains, row)
    requires apart && row.domainId.Some? ==>
             forall r :: r in db.rows && r.domainId.Some? && HostOf(db.domains, r) == HostOf(db.domains, row) ==>
               r.pathPrefix != row.pathPrefix && r.httpOnly == row.httpOnly
    requires row.domainId.None? ==> forall r :: r in db.rows && r.domainId.None? ==> r.pathPrefix != row.pathPrefix
    ensures Kept(WithRow(db, row), apart)
  {
    OrderedBelow(db.rows, db.nextRow);
    OrderedAppend(db.rows, row, db.nextRow);
    if apart { BackedMore(db, row); }
    hide HostOf, Ordered, SubOk, R.IsDomainHostname, Unique, OneScheme;
    assert forall r :: r in db.rows + [row] <==> r in db.rows || r == row;
  }

  /** A row on a host and path of its own, with its host's scheme, keeps both rules. */
  lemma BackedMore(db: Db, row: Row)
    requires Unique(db) && OneScheme(db)
    requires row.domainId.Some? ==>
             forall r :: r in db.rows && r.domainId.Some? && HostOf(db.domains, r) == HostOf(db.domains, row) ==>
               r.pathPrefix != row.pathPrefix && r.httpOnly == row.httpOnly
    ensures Unique(WithRow(db, row)) && OneScheme(WithRow(db, row))
  {
    hide HostOf;
    assert forall r :: r in db.rows + [row] <==> r in db.rows || r == row;
  }

  lemma InsertKeeps(db: Db, service: nat, r: Resolved, apart: bool)
    requires Kept(db, apart) && KeptPending(db, r, apart)
    ensures Kept(Insert(db, service, r), apart)
  {
    var outcome := Verdict(db, service, r);
    if outcome.Created? {
      var row := outcome.row;
      assert row == Row(db.nextRow, service, Some(r.domainId), r.subdomain, r.pathPrefix, r.httpOnly, false)
             && r.domainId in db.domains;
      hide Verdict, Ordered, R.IsHostname, R.IsDomainHostname;
      assert apart ==> HostOf(db.domains, row) == r.host;
      forall other | apart && other in db.rows && other.domainId.Some?
                     && HostOf(db.domains, other) == HostOf(db.domains, row)
        ensures other.pathPrefix != row.pathPrefix && other.httpOnly == row.httpOnly
      {
        CreatedIsFree(db, service, r, other);
      }
      WithRowKeeps(db, row, apart);
    }
  }

  lemma {:induction false} InDomainless(rows: seq<Row>, row: Row)
    ensures row in Domainless(rows) <==> row in rows && row.domainId.None?
  {
    if rows != [] { InDomainless(rows[1..], row); }
  }

  lemma DomainlessKeeps(db: Db, service: nat, path: string, httpOnly: bool, apart: bool)
    requires Kept(db, apart)
    ensures Kept(After(db, DomainlessVerdict(db, service, path, httpOnly)), apart)
  {
    var outcome := DomainlessVerdict(db, service, path, httpOnly);
    if outcome.Created? {
      var row := outcome.row;
      assert row == Row(db.nextRow, service, None, "", path, httpOnly, false);
      forall other | other in db.rows && other.domainId.None? ensures other.pathPrefix != row.pathPrefix {
        InDomainless(db.rows, other);
      }
      hide DomainlessVerdict;
      WithRowKeeps(db, row, apart);
    }
  }

  lemma {:induction false} InKeep(rows: seq<Row>, drop: Row -> bool, row: Row)
    ensures row in Keep(rows, drop) <==> row in rows && !drop(row)
  {
    if rows != [] { InKeep(rows[1..], drop, row); }
  }

  lemma {:induction false} KeepOrdered(rows: seq<Row>, drop: Row -> bool, next: nat)
    requires Ordered(rows, next)
    ensures Ordered(Keep(rows, drop), next)
  {
    if rows != [] {
      KeepOrdered(rows[1..], drop, next);
      var rest := Keep(rows[1..], drop);
      forall row | row in rest ensures rows[0].id < row.id { InKeep(rows[1..], drop, row); }
      assert ([rows[0]] + rest)[1..] == rest && [] + rest == rest;
    }
  }

  /** What is left are rows of before, on the same hosts. */
  ghost predicate Remains(db: Db, t: Db) {
    forall row :: row in t.rows ==>
      row in db.rows && GoodRow(t.domains, row) && HostOf(t.domains, row) == HostOf(db.domains, row)
  }

  lemma RemainsApart(db: Db, t: Db)
    requires Remains(db, t)
    ensures Apart(db) ==> Apart(t)
    ensures DomainlessUnique(db) ==> DomainlessUnique(t)
    ensures GoodRows(t)
  {
    hide HostOf, SubOk;
  }

  /** Deleting rows, and domains that have no row left, keeps everything. */
  lemma KeepKeeps(db: Db, drop: Row -> bool, domains: map<nat, string>, apart: bool)
    requires Kept(db, apart)
    requires forall id :: id in domains ==> id in db.domains && domains[id] == db.domains[id]
    requires forall row :: row in db.rows && row.domainId.Some? && !drop(row) ==> row.domainId.value in domains
    ensures Kept(db.(domains := domains, rows := Keep(db.rows, drop)), apart)
  {
    var t := db.(domains := domains, rows := Keep(db.rows, drop));
    KeepOrdered(db.rows, drop, db.nextRow);
    hide Keep, Ordered, SubOk, R.IsDomainHostname, R.HostOf, Apart, DomainlessUnique;
    forall row | row in t.rows
      ensures row in db.rows && GoodRow(domains, row) && HostOf(domains, row) == HostOf(db.domains, row)
    {
      InKeep(db.rows, drop, row);
      assert GoodRow(db.domains, row);
    }
    RemainsApart(db, t);
  }

  lemma DropDomainKeeps(db: Db, id: nat, apart: bool)
    requires Kept(db, apart)
    ensures Kept(DeleteDomain(db, id), apart)
  {
    hide Keep, Unique, OneScheme, Ordered, DomainlessUnique;
    forall row | row in db.rows && row.domainId.Some? && row.domainId != Some(id)
      ensures row.domainId.value in db.domains - {id}
    {
      assert GoodRow(db.domains, row);
    }
    KeepKeeps(db, (row: Row) => row.domainId == Some(id), db.domains - {id}, apart);
  }

  lemma DropRowsKeeps(db: Db, drop: Row -> bool, apart: bool)
    requires Kept(db, apart)
    ensures Kept(db.(rows := Keep(db.rows, drop)), apart)
  {
    hide Keep, Unique, OneScheme, Ordered, DomainlessUnique;
    forall row | row in db.rows && row.domainId.Some? ensures row.domainId.value in db.domains {
      assert GoodRow(db.domains, row);
    }
    KeepKeeps(db, drop, db.domains, apart);
  }

  lemma AddDomainKeeps(db: Db, hostname: string, apart: bool)
    requires Kept(db, apart)
    ensures Kept(CreateDomain(db, hostname), apart)
  {
    var t := CreateDomain(db, hostname);
    hide R.IsDomainHostname, SubOk, Ordered, R.HostOf;
    forall row | row in db.rows ensures GoodRow(t.domains, row) && HostOf(t.domains, row) == HostOf(db.domains, row) {
      assert GoodRow(db.domains, row);
    }
  }

  // ---- What is resolved ------------------------------------------------------------

  lemma LabelBelowHost(name: string, base: string)
    requires R.IsLabel(name) && R.IsHostname(base)
    ensures R.IsHostname(name + "." + base)
  {
    LabelHasNoDot(name);
    SplitPart(name, base, '.');
    hide R.IsLabel;
  }

  /** The host of a Domain row and a fitting subdomain is a hostname that no scheme can hide in. */
  lemma TupleHost(hostname: string, subdomain: string)
    requires R.IsDomainHostname(hostname) && IsSubdomain(hostname, subdomain)
    ensures var host := R.HostOf(hostname, subdomain); R.IsHostname(host) && ('.' in host || host == "localhost")
    ensures SubOk(hostname, subdomain)
  {
    hide R.IsHostname, R.IsLabel;
    if IsWildcard(hostname) {
      LabelBelowHost(subdomain, hostname[2..]);
      LabelHasNoDot(subdomain);
      assert (subdomain + "." + hostname[2..])[|subdomain|] == '.';
    }
  }

  lemma FromStringGood(db: Db, input: string, list: seq<R.DomainRow>)
    requires GoodDomains(db) && Lists(db.domains, list) && FromString(input, list).Some?
    ensures GoodPending(db, FromString(input, list).value)
  {
    var r := FromString(input, list).value;
    hide R.IsHostname, R.IsDomainHostname, R.Parse, R.IsPath, R.FindRow;
    R.ParsedIsGood(input);
    R.ResolvedHost(r.host, list);
    assert R.DomainRow(r.domainId, r.hostname) in list;
    if IsWildcard(r.hostname) {
      assert r.subdomain == r.host[..IndexOfChar(r.host, '.')];
      FirstLabel(r.host);
    }
  }

  /** What stands before the first dot of a hostname is a label. */
  lemma FirstLabel(host: string)
    requires R.IsHostname(host)
    ensures R.IsLabel(host[..IndexOfChar(host, '.')])
  {
    hide R.IsLabel;
    var dot := IndexOfChar(host, '.');
    var name := host[..dot];
    assert '.' !in name;
    SplitPart(name, if dot < |host| then host[dot + 1..] else "", '.');
    assert host == if dot < |host| then name + ['.'] + host[dot + 1..] else name;
    assert Split(host, '.')[0] == name;
  }

  /**
   The tuple form checks the host it inserts under exactly when its prefix is tidy; an untidy
   prefix that parses is checked against another host.
   */
  lemma TupleChecksItsHost(db: Db, id: nat, subdomain: string, prefix: string, httpOnly: bool)
    requires GoodDomains(db) && FromTuple(db.domains, id, subdomain, prefix, httpOnly).Some?
    ensures var r := FromTuple(db.domains, id, subdomain, prefix, httpOnly).value;
      && (r.host == R.HostOf(r.hostname, r.subdomain) <==> TidyPrefix(prefix))
      && R.IsHostname(r.host) && R.IsPath(r.pathPrefix)
  {
    var hostname := db.domains[id];
    hide R.IsHostname, R.IsDomainHostname, R.Parse, R.HostOf, R.IsPath, R.Written, R.Overlap;
    TupleHost(hostname, subdomain);
    R.TupleKeepsHost(R.HostOf(hostname, subdomain), prefix, httpOnly);
    R.ParsedIsGood(R.Written(R.HostOf(hostname, subdomain), prefix, httpOnly));
  }

  lemma FromTupleGood(db: Db, id: nat, subdomain: string, prefix: string, httpOnly: bool)
    requires GoodDomains(db) && FromTuple(db.domains, id, subdomain, prefix, httpOnly).Some?
    ensures KeptPending(db, FromTuple(db.domains, id, subdomain, prefix, httpOnly).value, TidyPrefix(prefix))
  {
    hide R.IsHostname, R.IsDomainHostname, R.Parse, R.HostOf, TidyPrefix, SubOk, IsSubdomain, R.Written;
    TupleChecksItsHost(db, id, subdomain, prefix, httpOnly);
    TupleHost(db.domains[id], subdomain);
  }

  // ---- Runs keep the invariant -----------------------------------------------------

  lemma {:induction false} InsertAllKeeps(db: Db, service: nat, routes: seq<Resolved>, apart: bool)
    requires Kept(db, apart) && forall k :: 0 <= k < |routes| ==> KeptPending(db, routes[k], apart)
    ensures var t := InsertAll(db, service, routes);
      t.Some? ==>
        && Kept(t.value, apart) && t.value.domains == db.domains && t.value.nextDomain == db.nextDomain
        && t.value.services == db.services
    decreases |routes|
  {
    hide Kept, ChecksItsHost, R.IsDomainHostname, SubOk;
    if routes != [] {
      var init, last := routes[..|routes| - 1], routes[|routes| - 1];
      InsertAllKeeps(db, service, init, apart);
      var before := InsertAll(db, service, init);
      if before.Some? {
        assert KeptPending(db, routes[|routes| - 1], apart);
        assert KeptPending(before.value, last, apart);
        hide Verdict, KeptPending;
        InsertKeeps(before.value, service, last, apart);
      }
    }
  }

  lemma {:induction false} PickGood(db: Db, pending: seq<Resolved>, ks: seq<nat>, apart: bool)
    requires forall k :: 0 <= k < |pending| ==> KeptPending(db, pending[k], apart)
    ensures forall k :: 0 <= k < |Pick(pending, ks)| ==> KeptPending(db, Pick(pending, ks)[k], apart)
    decreases |ks|
  {
    hide KeptPending;
    if ks != [] { PickGood(db, pending, ks[..|ks| - 1], apart); }
  }

  lemma CreateKeeps(db: Db, routes: seq<Resolved>, apart: bool)
    requires Kept(db, apart) && forall k :: 0 <= k < |routes| ==> KeptPending(db, routes[k], apart)
    ensures Kept(Create(db, routes), apart) && Create(db, routes).domains == db.domains
    ensures Create(db, routes).nextDomain == db.nextDomain
  {
    hide ChecksItsHost, R.IsDomainHostname, SubOk, Ordered, InsertAll;
    var t := WithService(db);
    assert Kept(t, apart) by { ServiceKeeps(db, apart); }
    forall k | 0 <= k < |routes| ensures KeptPending(t, routes[k], apart) { assert KeptPending(db, routes[k], apart); }
    hide Kept, KeptPending;
    InsertAllKeeps(t, db.nextService, routes, apart);
  }

  lemma ServiceKeeps(db: Db, apart: bool)
    requires Kept(db, apart)
    ensures Kept(WithService(db), apart)
  {
    hide R.IsDomainHostname, SubOk, HostOf, Ordered;
  }

  /** What was resolved stays good: a deleted domain's id never comes back. */
  lemma PendingStays(db: Db, t: Db, r: Resolved, apart: bool)
    requires KeptPending(db, r, apart) && db.nextDomain <= t.nextDomain
    requires forall id :: id in t.domains && id < db.nextDomain ==> id in db.domains && t.domains[id] == db.domains[id]
    ensures KeptPending(t, r, apart)
  {
    hide ChecksItsHost, R.IsDomainHostname, SubOk;
  }

  lemma DbKeeps(s: State, e: Event, apart: bool)
    requires AllGood(s, apart)
    ensures Kept(Apply(s, e).db, apart)
    ensures s.db.nextDomain <= Apply(s, e).db.nextDomain
    ensures forall id :: id in Apply(s, e).db.domains && id < s.db.nextDomain ==>
              id in s.db.domains && Apply(s, e).db.domains[id] == s.db.domains[id]
  {
    var db := s.db;
    hide Kept, KeptPending, Verdict, DomainlessVerdict, Keep, FromString, FromTuple, InsertAll, R.IsDomainHostname;
    hide Create;
    match e
    case AddDomain(hostname) => AddDomainKeeps(db, hostname, apart);
    case DropDomain(id) => DropDomainKeeps(db, id, apart);
    case DropService(id) =>
      DropRowsKeeps(db, (row: Row) => row.service == id, apart);
      ServicesApart(db.(rows := Keep(db.rows, (row: Row) => row.service == id)), db.services - {id}, apart);
    case ResolveString(input, list) =>
    case ResolveTuple(id, subdomain, prefix, httpOnly) =>
    case InsertPending(service, k) => if k < |s.pending| { InsertKeeps(db, service, s.pending[k], apart); }
    case CreateService(ks) =>
      PickGood(db, s.pending, ks, apart);
      CreateKeeps(db, Pick(s.pending, ks), apart);
    case InsertDomainless(service, path, httpOnly) => DomainlessKeeps(db, service, path, httpOnly, apart);
    case RemoveRoute(id) => DropRowsKeeps(db, (row: Row) => row.id == id && !row.protected, apart);
  }

  lemma ServicesApart(db: Db, services: set<nat>, apart: bool)
    requires Kept(db, apart)
    ensures Kept(db.(services := services), apart)
  {
    hide R.IsDomainHostname, SubOk, HostOf, Ordered;
  }

  lemma StepKeeps(s: State, e: Event, apart: bool)
    requires AllGood(s, apart) && (apart && e.ResolveTuple? ==> TidyPrefix(e.prefix))
    ensures AllGood(Apply(s, e), apart)
  {
    DbKeeps(s, e, apart);
    assert GoodDomains(s.db) by { KeptDomains(s.db, apart); }
    hide Kept, Fits, ChecksItsHost, Verdict, DomainlessVerdict, Keep, FromString, FromTuple, InsertAll, TidyPrefix;
    hide Create, GoodDomains;
    var t := Apply(s, e);
    forall k | 0 <= k < |s.pending| ensures KeptPending(t.db, s.pending[k], apart) {
      PendingStays(s.db, t.db, s.pending[k], apart);
    }
    match e
    case ResolveString(input, list) =>
      if Lists(s.db.domains, list) && FromString(input, list).Some? { FromStringGood(s.db, input, list); }
    case ResolveTuple(id, subdomain, prefix, httpOnly) =>
      if FromTuple(s.db.domains, id, subdomain, prefix, httpOnly).Some? {
        FromTupleGood(s.db, id, subdomain, prefix, httpOnly);
      }
    case _ =>
  }

  lemma KeptDomains(db: Db, apart: bool)
    requires Kept(db, apart)
    ensures GoodDomains(db)
  {
    hide GoodDomains, GoodRows, Apart, DomainlessUnique;
  }

  /** Whatever routes are named, every event keeps the tables good; with tidy prefixes also apart. */
  lemma {:induction false} RunKeeps(events: seq<Event>, apart: bool)
    requires apart ==> Tidy(events)
    ensures AllGood(Run(events), apart)
    decreases |events|
  {
    if events == [] {
      FirstRunGood(apart);
    } else {
      var init := events[..|events| - 1];
      assert apart ==> Tidy(init) by { hide TidyPrefix; assert forall i :: 0 <= i < |init| ==> init[i] == events[i]; }
      RunKeeps(init, apart);
      StepKeeps(Run(init), events[|events| - 1], apart);
      hide Apply, Kept, KeptPending;
    }
  }

  /**
   In every reachable state, untidy prefixes or not: Domain rows have distinct and valid
   hostnames, every domain-backed route fits its row, ids are in order, and no two routes
   without a domain share a path.
   */
  lemma TablesStayGood(events: seq<Event>)
    ensures GoodTables(Run(events).db)
  {
    hide GoodTables, KeptPending;
    RunKeeps(events, false);
  }

  /**
   In every reachable state no two domain-backed routes share host and path, all routes of a
   host agree on plain HTTP, and no two routes without a domain share a path: across exact
   and wildcard rows, domains and services created and deleted between resolving and
   inserting, several routes in one transaction, and both ways to name a route.
   */
  lemma RoutesStayApart(events: seq<Event>)
    requires Tidy(events)
    ensures Unique(Run(events).db) && OneScheme(Run(events).db) && DomainlessUnique(Run(events).db)
    ensures Inv(Run(events).db)
  {
    hide Unique, OneScheme, DomainlessUnique, KeptPending, Tidy, GoodDomains, GoodRows, Ordered;
    RunKeeps(events, true);
  }

  lemma FirstRunGood(apart: bool)
    ensures AllGood(FIRST_RUN, apart)
  {
  }

  lemma KeepsPanel(rows: seq<Row>, drop: Row -> bool)
    requires PANEL_ROUTE in rows && !drop(PANEL_ROUTE)
    ensures PANEL_ROUTE in Keep(rows, drop)
  {
    InKeep(rows, drop, PANEL_ROUTE);
  }

  lemma {:induction false} InsertAllGrows(db: Db, service: nat, routes: seq<Resolved>)
    ensures var t := InsertAll(db, service, routes); t.Some? ==> db.rows <= t.value.rows
    decreases |routes|
  {
    hide Verdict;
    if routes != [] { InsertAllGrows(db, service, routes[..|routes| - 1]); }
  }

  lemma StepKeepsPanel(s: State, e: Event)
    requires PANEL_ROUTE in s.db.rows
    ensures PANEL_ROUTE in Apply(s, e).db.rows
  {
    hide Verdict, DomainlessVerdict, FromString, FromTuple, InsertAll, Keep;
    match e
    case DropDomain(id) => KeepsPanel(s.db.rows, (row: Row) => row.domainId == Some(id));
    case DropService(id) => if id != PANEL { KeepsPanel(s.db.rows, (row: Row) => row.service == id); }
    case CreateService(ks) => InsertAllGrows(WithService(s.db), s.db.nextService, Pick(s.pending, ks));
    case RemoveRoute(id) => KeepsPanel(s.db.rows, (row: Row) => row.id == id && !row.protected);
    case _ =>
  }

  /** Whatever is created and removed, the panel keeps its root route, and no other service can have one. */
  lemma PanelRouteStays(events: seq<Event>)
    ensures PANEL_ROUTE in Run(events).db.rows
    ensures forall row :: row in Run(events).db.rows && row.domainId.None? && row.pathPrefix == "" ==>
              row == PANEL_ROUTE
  {
    hide Run, GoodDomains, GoodRows, Ordered;
    PanelStays(events);
    TablesStayGood(events);
  }

  lemma {:induction false} PanelStays(events: seq<Event>)
    ensures PANEL_ROUTE in Run(events).db.rows
    decreases |events|
  {
    hide Apply;
    if events != [] {
      PanelStays(events[..|events| - 1]);
      StepKeepsPanel(Run(events[..|events| - 1]), events[|events| - 1]);
    }
  }

  // ---- Exactly tidy prefixes are safe ------------------------------------------------

  /** A route on the host itself, with another path and the other scheme. */
  function Other(r: Resolved): Row {
    Row(0, 0, Some(r.domainId), r.subdomain, if r.pathPrefix == "" then "/x" else "", !r.httpOnly, false)
  }

  /** A database with just that route. */
  function Trap(db: Db, r: Resolved): Db {
    Db(db.domains, {0}, [Other(r)], db.nextDomain, 1, 1)
  }

  lemma PathX()
    ensures R.IsPath("/x") && R.IsPath("")
  {
    SplitPart("x", "", '/');
    assert "/x"[1..] == "x";
    hide Split;
  }

  lemma TrapGood(db: Db, r: Resolved)
    requires GoodDomains(db) && Fits(db, r) && r.domainId in db.domains
    ensures Inv(Trap(db, r))
  {
    PathX();
    hide R.IsDomainHostname, SubOk, R.IsPath, R.HostOf;
    var t := Trap(db, r);
    assert t.rows == [Other(r)];
    assert Ordered(t.rows, 1);
  }

  /** Checked on another host, the route is inserted beside that one. */
  lemma TrapBreaks(db: Db, r: Resolved)
    requires GoodDomains(db) && Fits(db, r) && r.domainId in db.domains && R.IsHostname(r.host)
    requires r.host != R.HostOf(r.hostname, r.subdomain)
    ensures !Apart(Insert(Trap(db, r), 0, r))
  {
    var t, row := Trap(db, r), Other(r);
    TrapGood(db, r);
    assert GoodRow(t.domains, row);
    OnIffHost(t.domains, row, r.host);
    hide R.IsDomainHostname, SubOk, R.IsPath, R.HostOf, R.IsHostname, IsOn, GoodTables;
    assert t.rows == [row] && t.rows[1..] == [];
    assert HostOf(t.domains, row) == R.HostOf(r.hostname, r.subdomain);
    assert RoutesForHost(t.domains, t.rows, r.host) == [];
    assert !Indexed(t.rows, r.domainId, r.subdomain, r.pathPrefix);
    var added := Row(1, 0, Some(r.domainId), r.subdomain, r.pathPrefix, r.httpOnly, false);
    var u := Insert(t, 0, r);
    assert u.rows == [row, added] && row in u.rows && added in u.rows;
    assert HostOf(u.domains, added) == HostOf(u.domains, row);
  }

  /** From every good state, for every service, inserting the route keeps routes apart. */
  ghost predicate SafeToInsert(db: Db, r: Resolved) {
    forall t: Db, service: nat :: Inv(t) && t.domains == db.domains ==> Apart(Insert(t, service, r))
  }

  /**
   For every domain, subdomain and prefix of the tuple form: inserting the route keeps
   routes apart in all good states with these domains if and only if the prefix is tidy.
   */
  lemma TidyExactly(db: Db, id: nat, subdomain: string, prefix: string, httpOnly: bool)
    requires GoodDomains(db) && FromTuple(db.domains, id, subdomain, prefix, httpOnly).Some?
    ensures SafeToInsert(db, FromTuple(db.domains, id, subdomain, prefix, httpOnly).value) <==> TidyPrefix(prefix)
  {
    var r := FromTuple(db.domains, id, subdomain, prefix, httpOnly).value;
    assert r.domainId in db.domains;
    FromTupleGood(db, id, subdomain, prefix, httpOnly);
    TupleChecksItsHost(db, id, subdomain, prefix, httpOnly);
    hide FromTuple, TidyPrefix, R.IsHostname, R.IsDomainHostname, R.HostOf, R.IsPath, SubOk, Insert, Apart, Trap;
    if TidyPrefix(prefix) {
      forall t: Db, service: nat | Inv(t) && t.domains == db.domains ensures Apart(Insert(t, service, r)) {
        FitsThere(db, t, r);
        InsertKeeps(t, service, r, true);
      }
    } else {
      TrapGood(db, r);
      TrapBreaks(db, r);
      TrapDomains(db, r);
    }
  }

  lemma TrapDomains(db: Db, r: Resolved)
    ensures Trap(db, r).domains == db.domains
  {
  }

  lemma FitsThere(db: Db, t: Db, r: Resolved)
    requires Fits(db, r) && GoodDomains(t) && t.domains == db.domains && r.domainId in db.domains
    ensures Fits(t, r)
  {
    hide R.IsDomainHostname, SubOk, R.IsPath;
  }

  // ---- What the answers mean -------------------------------------------------------

  /** A row is the route of a host and path. */
  ghost predicate IsRoute(db: Db, row: Row, host: string, path: string) {
    row in db.rows && row.domainId.Some? && HostOf(db.domains, row) == host && row.pathPrefix == path
  }

  lemma RouteFound(db: Db, host: string, path: string)
    requires Inv(db) && R.IsHostname(host)
    ensures var found := FindPath(RoutesForHost(db.domains, db.rows, host), path);
      && (found.Some? ==> IsRoute(db, found.value, host, path))
      && (found.None? ==> forall row :: !IsRoute(db, row, host, path))
  {
    hide R.IsHostname, R.IsDomainHostname, IsOn, RoutesForHost, HostOf, FindPath;
    forall row | row in db.rows && row.domainId.Some?
      ensures IsOn(db.domains, row, host) <==> HostOf(db.domains, row) == host
    {
      assert GoodRow(db.domains, row);
      OnIffHost(db.domains, row, host);
    }
    forall row
      ensures row in RoutesForHost(db.domains, db.rows, host) <==> row in db.rows && IsOn(db.domains, row, host)
    {
      InRoutesForHost(db.domains, db.rows, host, row);
    }
    assert forall row :: IsOn(db.domains, row, host) ==> row.domainId.Some? by { OnIsBacked(db.domains, host); }
  }

  lemma OnIsBacked(domains: map<nat, string>, host: string)
    ensures forall row :: IsOn(domains, row, host) ==> row.domainId.Some?
  {
  }

  /**
   Inserting is idempotent for the owner and refused to anyone else, and what is created is
   the route that was asked for. The unique index never has to step in.
   */
  lemma InsertMeans(db: Db, service: nat, r: Resolved)
    requires Inv(db) && GoodPending(db, r)
    ensures var outcome, t := Verdict(db, service, r), Insert(db, service, r);
      && (outcome == Refused(Taken) <==> exists row :: IsRoute(db, row, r.host, r.pathPrefix) && row.service != service)
      && (outcome.AlreadyExisted? ==>
        IsRoute(db, outcome.row, r.host, r.pathPrefix) && outcome.row.service == service && t == db)
      && (outcome.Created? ==>
            && IsRoute(t, outcome.row, r.host, r.pathPrefix) && outcome.row.service == service
            && outcome.row.httpOnly == r.httpOnly && t.rows == db.rows + [outcome.row]
            && forall row :: !IsRoute(db, row, r.host, r.pathPrefix))
      && (outcome.Refused? ==> t == db && outcome.error != JustTaken)
  {
    RouteFound(db, r.host, r.pathPrefix);
    if r.domainId in db.domains && Indexed(db.rows, r.domainId, r.subdomain, r.pathPrefix) { IndexedIsRoute(db, r); }
    hide R.IsHostname, R.IsDomainHostname, RoutesForHost, FindPath, OtherScheme, Indexed, Ordered;
    var outcome := Verdict(db, service, r);
    var found := FindPath(RoutesForHost(db.domains, db.rows, r.host), r.pathPrefix);
    if found.Some? && found.value.service == service {
      forall row | IsRoute(db, row, r.host, r.pathPrefix) ensures row.service == service { assert row == found.value; }
    }
    if outcome.Created? {
      assert outcome.row in Insert(db, service, r).rows;
      assert HostOf(db.domains, outcome.row) == r.host;
    }
  }

  lemma IndexedIsRoute(db: Db, r: Resolved)
    requires Inv(db) && GoodPending(db, r) && r.domainId in db.domains
    requires Indexed(db.rows, r.domainId, r.subdomain, r.pathPrefix)
    ensures exists row :: IsRoute(db, row, r.host, r.pathPrefix)
  {
    hide R.IsHostname, R.IsDomainHostname, R.HostOf;
    var i :| 0 <= i < |db.rows| && db.rows[i].domainId == Some(r.domainId) && db.rows[i].subdomain == r.subdomain
      && db.rows[i].pathPrefix == r.pathPrefix;
    assert IsRoute(db, db.rows[i], r.host, r.pathPrefix);
  }

  /** What a transaction of inserts leaves: the old rows, then rows of its service, and every route it was given. */
  ghost predicate Extends(db: Db, t: Db, service: nat, routes: seq<Resolved>) {
    && t.domains == db.domains && t.services == db.services
    && db.rows <= t.rows
    && (forall i :: |db.rows| <= i < |t.rows| ==> t.rows[i].service == service)
    && (forall k :: 0 <= k < |routes| ==> Owned(t, routes[k], service))
  }

  ghost predicate Owned(db: Db, r: Resolved, service: nat) {
    exists row :: IsRoute(db, row, r.host, r.pathPrefix) && row.service == service
  }

  lemma {:induction false} InsertAllMeans(db: Db, service: nat, routes: seq<Resolved>)
    requires Inv(db) && forall k :: 0 <= k < |routes| ==> GoodPending(db, routes[k])
    requires InsertAll(db, service, routes).Some?
    ensures Extends(db, InsertAll(db, service, routes).value, service, routes)
    decreases |routes|
  {
    hide GoodTables, Apart, Fits, ChecksItsHost, Verdict, IsRoute, After;
    if routes != [] {
      var init, last := routes[..|routes| - 1], routes[|routes| - 1];
      InsertAllMeans(db, service, init);
      InsertAllKeeps(db, service, init, true);
      var before := InsertAll(db, service, init).value;
      var t := Insert(before, service, last);
      PendingStays(db, before, last, true);
      InsertExtends(before, service, last);
      OwnedStay(before, t, service, init);
      hide Owned, InsertAll;
      assert forall k :: 0 <= k < |init| ==> init[k] == routes[k];
    }
  }

  lemma OwnedStay(db: Db, t: Db, service: nat, routes: seq<Resolved>)
    requires db.rows <= t.rows && t.domains == db.domains
    requires forall k :: 0 <= k < |routes| ==> Owned(db, routes[k], service)
    ensures forall k :: 0 <= k < |routes| ==> Owned(t, routes[k], service)
  {
    hide IsRoute;
    forall k | 0 <= k < |routes| ensures Owned(t, routes[k], service) {
      var r := routes[k];
      assert Owned(db, r, service);
      var row :| IsRoute(db, row, r.host, r.pathPrefix) && row.service == service;
      RouteStays(db, t, row, r.host, r.pathPrefix);
    }
  }

  lemma InsertExtends(db: Db, service: nat, r: Resolved)
    requires Inv(db) && GoodPending(db, r) && !Verdict(db, service, r).Refused?
    ensures var t := Insert(db, service, r);
      && t.domains == db.domains && t.services == db.services && db.rows <= t.rows
      && (forall i :: |db.rows| <= i < |t.rows| ==> t.rows[i].service == service)
      && Owned(t, r, service)
  {
    InsertMeans(db, service, r);
    hide Inv, GoodPending, Verdict, IsRoute;
    var outcome := Verdict(db, service, r);
    assert IsRoute(Insert(db, service, r), outcome.row, r.host, r.pathPrefix);
  }

  lemma RouteStays(db: Db, t: Db, row: Row, host: string, path: string)
    requires IsRoute(db, row, host, path) && db.rows <= t.rows && t.domains == db.domains
    ensures IsRoute(t, row, host, path)
  {
    var i :| 0 <= i < |db.rows| && db.rows[i] == row;
    assert t.rows[i] == row;
  }

  /** Creating a service with its routes does all of it or none of it. */
  lemma CreateMeans(db: Db, routes: seq<Resolved>)
    requires Inv(db) && forall k :: 0 <= k < |routes| ==> GoodPending(db, routes[k])
    ensures Create(db, routes) == db || Extends(WithService(db), Create(db, routes), db.nextService, routes)
  {
    ServiceKeeps(db, true);
    forall k | 0 <= k < |routes| ensures GoodPending(WithService(db), routes[k]) {
      assert GoodPending(db, routes[k]);
      hide ChecksItsHost, R.IsDomainHostname, SubOk;
    }
    hide Inv, GoodPending, InsertAll, Extends;
    if InsertAll(WithService(db), db.nextService, routes).Some? {
      InsertAllMeans(WithService(db), db.nextService, routes);
    }
  }

  // ---- Removing --------------------------------------------------------------------

  function FindOwn(rows: seq<Row>, service: nat, path: string): (r: Option<Row>)
    ensures r.Some? ==> r.value in rows && r.value.service == service && r.value.pathPrefix == path
    ensures r.None? ==> forall row <- rows :: !(row.service == service && row.pathPrefix == path)
  {
    if rows == [] then None
    else if rows[0].service == service && rows[0].pathPrefix == path then Some(rows[0])
    else FindOwn(rows[1..], service, path)
  }

  /** The route that `removeRoute` by route string means. */
  function RemoveTarget(db: Db, service: nat, host: string, path: string): Option<Row> {
    FindOwn(RoutesForHost(db.domains, db.rows, host), service, path)
  }

  lemma {:induction false} OneId(rows: seq<Row>, next: nat, a: Row, b: Row)
    requires Ordered(rows, next) && a in rows && b in rows && a.id == b.id
    ensures a == b
  {
    if a in rows[1..] && b in rows[1..] { OneId(rows[1..], next, a, b); }
  }

  /** Removing takes out the one route of that host and path, unless it is protected, and no other. */
  lemma RemoveMeans(db: Db, service: nat, host: string, path: string)
    requires Inv(db) && R.IsHostname(host)
    ensures var target := RemoveTarget(db, service, host, path);
      && (target.None? ==> forall row :: IsRoute(db, row, host, path) ==> row.service != service)
      && (target.Some? ==>
            var t := DeleteRow(db, target.value.id);
            && IsRoute(db, target.value, host, path) && target.value.service == service
            && (forall row :: row in t.rows <==> row in db.rows && (row != target.value || row.protected))
            && (!target.value.protected ==> forall row :: !IsRoute(t, row, host, path)))
  {
    hide R.IsHostname, R.IsDomainHostname, HostOf, IsOn, RoutesForHost, FindOwn, Keep;
    var target := RemoveTarget(db, service, host, path);
    OnRoutes(db, host);
    if target.Some? {
      var drop := (row: Row) => row.id == target.value.id && !row.protected;
      forall row ensures row in Keep(db.rows, drop) <==> row in db.rows && !drop(row) { InKeep(db.rows, drop, row); }
      forall row | row in db.rows && row.id == target.value.id ensures row == target.value {
        OneId(db.rows, db.nextRow, row, target.value);
      }
      SameKeep(db, target.value.id, drop);
    }
  }

  lemma SameKeep(db: Db, id: nat, drop: Row -> bool)
    requires forall row :: drop(row) == (row.id == id && !row.protected)
    ensures forall row :: row in DeleteRow(db, id).rows <==> row in Keep(db.rows, drop)
  {
    forall row ensures row in DeleteRow(db, id).rows <==> row in Keep(db.rows, drop) {
      InKeep(db.rows, drop, row);
      InKeep(db.rows, (r: Row) => r.id == id && !r.protected, row);
    }
  }

  /** The query's answer is the host's routes. */
  lemma OnRoutes(db: Db, host: string)
    requires Inv(db) && R.IsHostname(host)
    ensures forall row :: row in RoutesForHost(db.domains, db.rows, host) <==>
                          row in db.rows && row.domainId.Some? && HostOf(db.domains, row) == host
  {
    hide R.IsHostname, R.IsDomainHostname, IsOn, RoutesForHost, HostOf;
    OnIsBacked(db.domains, host);
    forall row ensures row in RoutesForHost(db.domains, db.rows, host) <==>
                       row in db.rows && row.domainId.Some? && HostOf(db.domains, row) == host {
      InRoutesForHost(db.domains, db.rows, host, row);
      if row in db.rows && row.domainId.Some? {
        assert GoodRow(db.domains, row);
        OnIffHost(db.domains, row, host);
      }
    }
  }

  // ---- A prefix that runs into the host --------------------------------------------

  /** A database with one HTTPS route at the root of `a.io`, beside the panel's. */
  const ONE_ROUTE := Db(map[0 := "a.io"], {PANEL, 1}, [PANEL_ROUTE, Row(1, 1, Some(0), "", "", false, false)], 1, 2, 2)

  lemma TwoLabels(host: string, b: string)
    requires host == "a." + b && R.IsLabel(b)
    ensures R.IsHostname(host)
  {
    assert R.IsLabel("a");
    LabelHasNoDot(b);
    SplitPart(b, "", '.');
    hide Split, R.IsLabel;
    assert "a" + "." + b == host;
    LabelBelowHost("a", b);
  }

  lemma ShortHosts()
    ensures R.IsHostname("a.io") && R.IsHostname("a.ion") && R.IsPath("/x")
  {
    assert R.IsLabel("io") && R.IsLabel("ion");
    SplitPart("x", "", '/');
    assert "/x"[1..] == "x" && "a." + "io" == "a.io" && "a." + "ion" == "a.ion";
    hide Split, R.IsLabel, R.IsHostname;
    TwoLabels("a.io", "io");
    TwoLabels("a.ion", "ion");
  }

  /** How it comes about: a domain, a service, and a route of it in the tuple form. */
  const TO_ONE_ROUTE := [AddDomain("a.io"), CreateService([]), ResolveTuple(0, "", "", false), InsertPending(1, 0)]

  /** Then the same form with the prefix `n/x`, over plain HTTP. */
  const UNTIDY_RUN := TO_ONE_ROUTE + [ResolveTuple(0, "", "n/x", true), InsertPending(1, 1)]

  /**
   The prefix `n/x` on `a.io` is checked as `/x` on `a.ion`, and inserted as `/x` on `a.io`:
   over plain HTTP, next to a route over HTTPS. So the runs above need tidy prefixes.
   */
  lemma UntidyPrefixMixesSchemes()
    ensures Run(TO_ONE_ROUTE).db == ONE_ROUTE && !Tidy(UNTIDY_RUN)
    ensures Run(UNTIDY_RUN).pending ==
            [Resolved("a.io", "", false, 0, "a.io", ""), Resolved("a.ion", "/x", true, 0, "a.io", "")]
    ensures !OneScheme(Run(UNTIDY_RUN).db)
  {
    hide Run, Apply, Insert, TidyPrefix, OneScheme, FromTuple;
    OneRouteReached();
    UntidyResolves();
    UntidyInserts();
    var before := Run(TO_ONE_ROUTE);
    var r := Resolved("a.ion", "/x", true, 0, "a.io", "");
    RunTwo(TO_ONE_ROUTE, ResolveTuple(0, "", "n/x", true), InsertPending(1, 1));
    TupleThenInsert(before, r, "n/x", true);
    assert UNTIDY_RUN[4].prefix == "n/x";
  }

  lemma RunTwo(events: seq<Event>, a: Event, b: Event)
    ensures Run(events + [a, b]) == Apply(Apply(Run(events), a), b)
  {
    hide Apply;
    assert (events + [a, b])[..|events| + 1] == events + [a] && (events + [a])[..|events|] == events;
  }

  /** Resolving the tuple form on the first domain, and inserting what it gave for the first service made. */
  lemma TupleThenInsert(s: State, r: Resolved, prefix: string, httpOnly: bool)
    requires FromTuple(s.db.domains, 0, "", prefix, httpOnly) == Some(r)
    ensures Apply(Apply(s, ResolveTuple(0, "", prefix, httpOnly)), InsertPending(1, |s.pending|)) ==
            State(Insert(s.db, 1, r), s.pending + [r])
  {
    hide FromTuple, Insert;
  }

  lemma OneRouteReached()
    ensures Run(TO_ONE_ROUTE) == State(ONE_ROUTE, [Resolved("a.io", "", false, 0, "a.io", "")])
  {
    var r := Resolved("a.io", "", false, 0, "a.io", "");
    DomainAndService();
    PlainResolves();
    PlainInserts(r);
    hide Run, Apply, Insert, FromTuple;
    var start := [AddDomain("a.io"), CreateService([])];
    RunTwo(start, ResolveTuple(0, "", "", false), InsertPending(1, 0));
    assert TO_ONE_ROUTE == start + [ResolveTuple(0, "", "", false), InsertPending(1, 0)];
    TupleThenInsert(Run(start), r, "", false);
  }

  /** The database with that domain and service. */
  const NO_ROUTE := Db(map[0 := "a.io"], {PANEL, 1}, [PANEL_ROUTE], 1, 2, 1)

  lemma DomainAndService()
    ensures Run([AddDomain("a.io"), CreateService([])]) == State(NO_ROUTE, [])
  {
    IsDomain();
    hide R.IsDomainHostname;
    RunTwo([], AddDomain("a.io"), CreateService([]));
    assert [] + [AddDomain("a.io"), CreateService([])] == [AddDomain("a.io"), CreateService([])];
    assert Run([]) == FIRST_RUN;
    assert "a.io" !in FIRST_RUN.db.domains.Values;
    var t := Apply(FIRST_RUN, AddDomain("a.io"));
    assert t.db.domains == map[0 := "a.io"];
    assert Pick(t.pending, []) == [];
    assert Create(t.db, []) == WithService(t.db);
    assert {PANEL} + {1} == {PANEL, 1};
  }

  lemma IsDomain()
    ensures R.IsDomainHostname("a.io")
  {
    ShortHosts();
    NoStars();
    hide R.IsHostname, IsWildcard;
  }

  lemma NoStars()
    ensures !IsWildcard("a.io") && '.' in "a.io"
  {
    assert "a.io"[0] == 'a' && "a.io"[1] == '.';
  }

  lemma PlainResolves()
    ensures FromTuple(NO_ROUTE.domains, 0, "", "", false) == Some(Resolved("a.io", "", false, 0, "a.io", ""))
  {
    hide R.Parse, R.IsHostname, IsWildcard, R.IsLabel, R.Written;
    ShortHosts();
    NoStars();
    R.WrittenReadsBack("a.io", "", false);
    assert R.HostOf("a.io", "") == "a.io";
  }

  lemma PlainInserts(r: Resolved)
    requires r == Resolved("a.io", "", false, 0, "a.io", "")
    ensures Insert(NO_ROUTE, 1, r) == ONE_ROUTE
  {
    assert NO_ROUTE.rows == [PANEL_ROUTE];
    assert RoutesForHost(NO_ROUTE.domains, [PANEL_ROUTE], "a.io") == [];
    assert [PANEL_ROUTE] + [Row(1, 1, Some(0), "", "", false, false)] == ONE_ROUTE.rows;
  }

  lemma UntidyResolves()
    ensures FromTuple(ONE_ROUTE.domains, 0, "", "n/x", true) == Some(Resolved("a.ion", "/x", true, 0, "a.io", ""))
    ensures !TidyPrefix("n/x")
  {
    hide R.Parse, R.IsHostname, R.IsPath, R.Overlap, IsWildcard, R.IsLabel;
    ShortHosts();
    NoStars();
    OverlapOfUntidy();
    assert R.Written("a.io", "n/x", true) == R.Written("a.ion", "/x", true) by {
      assert "http://" + "a.io" + "n/x" == "http://a.ion/x" && "http://" + "a.ion" + "/x" == "http://a.ion/x";
    }
    hide R.Written;
    R.WrittenReadsBack("a.ion", "/x", true);
    assert R.HostOf("a.io", "") == "a.io";
  }

  lemma OverlapOfUntidy()
    ensures R.Overlap("n/x") == "n"
  {
    assert !IsSpace('x');
    assert TrimEnd("n/x") == "n/x";
    assert "n/x"[1..] == "/x" && IndexOfChar("/x", '/') == 0;
    assert "n/x"[..1] == "n";
  }

  lemma UntidyInserts()
    ensures var r := Resolved("a.ion", "/x", true, 0, "a.io", "");
      !OneScheme(Insert(ONE_ROUTE, 1, r))
  {
    var r := Resolved("a.ion", "/x", true, 0, "a.io", "");
    var row := Row(1, 1, Some(0), "", "", false, false);
    assert ONE_ROUTE.rows == [PANEL_ROUTE, row];
    NotOnUntidy(row);
    assert ONE_ROUTE.rows[1..] == [row];
    assert RoutesForHost(ONE_ROUTE.domains, [row], "a.ion") == [];
    hide R.HostOf, IsOn;
    var added := Row(2, 1, Some(0), "", "/x", true, false);
    assert Insert(ONE_ROUTE, 1, r).rows == [PANEL_ROUTE, row, added];
    assert row in Insert(ONE_ROUTE, 1, r).rows && added in Insert(ONE_ROUTE, 1, r).rows;
  }

  lemma NotOnUntidy(row: Row)
    requires row == Row(1, 1, Some(0), "", "", false, false)
    ensures !IsOn(ONE_ROUTE.domains, row, "a.ion")
  {
    assert "a.io"[0] != '*';
  }

  // ---- The transactions ------------------------------------------------------------

  /** The store a transaction works on. */
  class RouteStore {
    var db: Db

    /** `insertResolvedRoute` */
    method InsertResolvedRoute(service: nat, r: Resolved) returns (outcome: Outcome)
      modifies this
      ensures outcome == Verdict(old(db), service, r) && db == Insert(old(db), service, r)
    {
      hide RoutesForHost, OtherScheme, Indexed;
      var routes := RoutesForHost(db.domains, db.rows, r.host);
      var existing := FindPath(routes, r.pathPrefix);
      if existing.Some? && existing.value.service != service { return Refused(Taken); }
      if OtherScheme(routes, r.httpOnly) { return Refused(MixedScheme); }
      if existing.Some? { return AlreadyExisted(existing.value); }
      if r.domainId !in db.domains || service !in db.services { return Refused(Gone); }
      if Indexed(db.rows, r.domainId, r.subdomain, r.pathPrefix) { return Refused(JustTaken); }
      var row := Row(db.nextRow, service, Some(r.domainId), r.subdomain, r.pathPrefix, r.httpOnly, false);
      db := WithRow(db, row);
      outcome := Created(row);
    }

    /** `insertDomainlessRoute` */
    method InsertDomainlessRoute(service: nat, path: string, httpOnly: bool) returns (outcome: Outcome)
      modifies this
      ensures outcome == DomainlessVerdict(old(db), service, path, httpOnly)
      ensures db == After(old(db), outcome)
    {
      var existing := FindPath(Domainless(db.rows), path);
      if existing.Some? {
        if existing.value.service != service { return Refused(Taken); }
        return AlreadyExisted(existing.value);
      }
      if service !in db.services { return Refused(Gone); }
      var row := Row(db.nextRow, service, None, "", path, httpOnly, false);
      db := WithRow(db, row);
      outcome := Created(row);
    }

    /** The transaction of `create`: a refusal rolls everything back. */
    method CreateService(routes: seq<Resolved>) returns (ok: bool)
      modifies this
      ensures db == Create(old(db), routes)
      ensures ok <==> InsertAll(WithService(old(db)), old(db).nextService, routes).Some?
    {
      hide Verdict, Insert;
      var saved := db;
      var service := db.nextService;
      db := WithService(db);
      for i := 0 to |routes|
        invariant InsertAll(WithService(saved), service, routes[..i]) == Some(db)
      {
        InsertAllNext(WithService(saved), service, routes, i);
        var outcome := InsertResolvedRoute(service, routes[i]);
        if outcome.Refused? {
          NoneLater(WithService(saved), service, routes, i + 1);
          db := saved;
          return false;
        }
      }
      assert routes[..|routes|] == routes;
      ok := true;
    }
  }

  lemma InsertAllNext(db: Db, service: nat, routes: seq<Resolved>, i: nat)
    requires i < |routes| && InsertAll(db, service, routes[..i]).Some?
    ensures var before := InsertAll(db, service, routes[..i]).value;
      InsertAll(db, service, routes[..i + 1])
        == if Verdict(before, service, routes[i]).Refused? then None else Some(Insert(before, service, routes[i]))
  {
    hide Verdict, Insert;
    assert routes[..i + 1][..i] == routes[..i];
  }

  /** After a refusal nothing is inserted any more. */
  lemma {:induction false} NoneLater(db: Db, service: nat, routes: seq<Resolved>, i: nat)
    requires i <= |routes| && InsertAll(db, service, routes[..i]).None?
    ensures InsertAll(db, service, routes).None?
    decreases |routes|
  {
    hide Verdict, Insert;
    if i == |routes| {
      assert routes[..i] == routes;
    } else {
      assert routes[..|routes| - 1][..i] == routes[..i];
      NoneLater(db, service, routes[..|routes| - 1], i);
    }
  }

  // ---- What goes and what comes ----------------------------------------------------

  /** A domain goes with its routes, a service with its, unless it is the panel's; and nothing else goes. */
  lemma DropMeans(db: Db, id: nat, row: Row)
    ensures var t := DeleteDomain(db, id);
      && t.domains == db.domains - {id} && t.services == db.services
      && (row in t.rows <==> row in db.rows && row.domainId != Some(id))
    ensures var t := DeleteService(db, id);
      && t.domains == db.domains
      && (id == PANEL ==> t == db)
      && (id != PANEL ==> t.services == db.services - {id} && (row in t.rows <==> row in db.rows && row.service != id))
  {
    InKeep(db.rows, (r: Row) => r.domainId == Some(id), row);
    InKeep(db.rows, (r: Row) => r.service == id, row);
  }

  /** A valid hostname that is not there yet gets a row of its own, and nothing else changes. */
  lemma AddDomainMeans(db: Db, hostname: string)
    requires GoodDomains(db)
    ensures var t := CreateDomain(db, hostname);
      if R.IsDomainHostname(hostname) && forall id :: id in db.domains ==> db.domains[id] != hostname then
        && t.domains.Keys == db.domains.Keys + {db.nextDomain} && db.nextDomain !in db.domains
        && t.domains[db.nextDomain] == hostname
        && (forall id :: id in db.domains ==> t.domains[id] == db.domains[id])
        && t.rows == db.rows && t.services == db.services
      else t == db
  {
    hide R.IsDomainHostname;
    if id :| id in db.domains && db.domains[id] == hostname { assert hostname in db.domains.Values; }
  }

  // ---- Every answer exactly --------------------------------------------------------

  /** A route of the host that is for the other scheme. */
  ghost predicate HasOtherScheme(db: Db, host: string, httpOnly: bool) {
    exists row :: row in db.rows && row.domainId.Some? && HostOf(db.domains, row) == host && row.httpOnly != httpOnly
  }

  lemma OtherSchemeMeans(db: Db, host: string, httpOnly: bool)
    requires Inv(db) && R.IsHostname(host)
    ensures OtherScheme(RoutesForHost(db.domains, db.rows, host), httpOnly) <==> HasOtherScheme(db, host, httpOnly)
  {
    OnRoutes(db, host);
    hide R.IsHostname, RoutesForHost, HostOf;
    var routes := RoutesForHost(db.domains, db.rows, host);
    if i :| 0 <= i < |routes| && routes[i].httpOnly != httpOnly { assert routes[i] in routes; }
    if row :| row in db.rows && row.domainId.Some? && HostOf(db.domains, row) == host && row.httpOnly != httpOnly {
      assert row in routes;
      var i :| 0 <= i < |routes| && routes[i] == row;
    }
  }

  /**
   Which answer an insert gets: taken, if another service has a route of that host and path;
   else mixed, if the host has a route for the other scheme; else the one there is, if the
   service has it; else gone, if its domain or the service is; and else it is created.
   */
  lemma InsertExactly(db: Db, service: nat, r: Resolved)
    requires Inv(db) && GoodPending(db, r)
    ensures var outcome := Verdict(db, service, r);
      if exists row :: IsRoute(db, row, r.host, r.pathPrefix) && row.service != service then outcome == Refused(Taken)
      else if HasOtherScheme(db, r.host, r.httpOnly) then outcome == Refused(MixedScheme)
      else if exists row :: IsRoute(db, row, r.host, r.pathPrefix) then outcome.AlreadyExisted?
      else if r.domainId !in db.domains || service !in db.services then outcome == Refused(Gone)
      else outcome.Created? && outcome.row.domainId == Some(r.domainId) && outcome.row.subdomain == r.subdomain
           && outcome.row.id == db.nextRow && !outcome.row.protected
  {
    InsertMeans(db, service, r);
    RouteFound(db, r.host, r.pathPrefix);
    OtherSchemeMeans(db, r.host, r.httpOnly);
    hide R.IsHostname, R.IsDomainHostname, RoutesForHost, FindPath, OtherScheme, Indexed, Inv, IsRoute, HasOtherScheme;
  }

  /** A route without a domain: the one there is, to its owner; refused to others; else created as asked for. */
  lemma DomainlessExactly(db: Db, service: nat, path: string, httpOnly: bool)
    requires DomainlessUnique(db)
    ensures var outcome, t := DomainlessVerdict(db, service, path, httpOnly),
                              After(db, DomainlessVerdict(db, service, path, httpOnly));
      if row :| row in db.rows && row.domainId.None? && row.pathPrefix == path then
        t == db && outcome == if row.service == service then AlreadyExisted(row) else Refused(Taken)
      else if service !in db.services then t == db && outcome == Refused(Gone)
      else t.rows == db.rows + [Row(db.nextRow, service, None, "", path, httpOnly, false)]
  {
    var found := FindPath(Domainless(db.rows), path);
    forall row ensures row in Domainless(db.rows) <==> row in db.rows && row.domainId.None? {
      InDomainless(db.rows, row);
    }
    hide FindPath, Domainless;
  }

  // ---- What is resolved ------------------------------------------------------------

  /** The string form hands on the host, path and scheme the text spells, and a row that serves that host. */
  lemma StringMeans(input: string, list: seq<R.DomainRow>)
    ensures var r := FromString(input, list);
      && (r.Some? ==>
            && R.Parse(input) == R.Route(R.Parsed(r.value.host, r.value.pathPrefix, r.value.httpOnly))
            && R.DomainRow(r.value.domainId, r.value.hostname) in list
            && R.HostOf(r.value.hostname, r.value.subdomain) == r.value.host)
      && (r.None? ==> R.Parse(input).Bad? || R.Resolve(R.Parse(input).value.host, list).None?)
  {
    hide R.Parse, R.Resolve, R.IsHostname, R.IsPath, R.HostOf;
    if R.Parse(input).Route? {
      R.ParsedIsGood(input);
      if R.Resolve(R.Parse(input).value.host, list).Some? { R.ResolvedHost(R.Parse(input).value.host, list); }
    }
  }

  /** The tuple form hands on its own domain, subdomain and scheme, and a clean prefix as it is. */
  lemma TupleMeans(db: Db, id: nat, subdomain: string, prefix: string, httpOnly: bool)
    requires GoodDomains(db) && id in db.domains && IsSubdomain(db.domains[id], subdomain)
    ensures var r := FromTuple(db.domains, id, subdomain, prefix, httpOnly);
      && (r.Some? ==>
            && r.value.domainId == id && r.value.hostname == db.domains[id] && r.value.subdomain == subdomain
            && r.value.httpOnly == httpOnly)
      && (R.IsPath(prefix) ==>
            r.Some? && r.value.pathPrefix == prefix && r.value.host == R.HostOf(db.domains[id], subdomain))
  {
    hide R.IsHostname, R.IsDomainHostname, R.Parse, R.HostOf, R.IsPath, R.Written;
    TupleHost(db.domains[id], subdomain);
    if R.IsPath(prefix) { R.WrittenReadsBack(R.HostOf(db.domains[id], subdomain), prefix, httpOnly); }
  }
}
