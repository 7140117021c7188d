/**
 What the generator writes for a route, a site block and the file (`staticServingLines`
 in staticRouting.ts; `appendRouteBody` to `appendRenderedSiteBlock`, the end of
 `buildCaddyConfig` and the validation file in caddy.ts), as documents.
 */
module CaddyFile {
  import opened Text
  import opened Wrappers
  import opened CaddyLexer
  import opened CaddyLayout
  import opened CaddySplice
  import opened CaddyChecker
  import opened CaddyRender
  import opened CaddySite

  datatype Service = Service(
    id: nat,
    isStatic: bool,
    status: string,
    hasSuccessfulDeployment: bool,
    outputDir: string,
    containerName: Option<string>,
    containerRunning: bool,
    containerPort: nat,
    staticRoutingMode: Option<string>,
    staticCaddyConfig: Option<string>)

  datatype Route = Route(pathPrefix: string, service: Service)

  function Decimal(n: nat): string {
    (if n < 10 then "" else Decimal(n / 10)) + [('0' as int + n % 10) as char]
  }

  function Words(words: seq<string>): (r: seq<Piece>)
    ensures |r| == |words| && forall i :: 0 <= i < |r| ==> r[i] == Plain(words[i])
  {
    seq(|words|, i requires 0 <= i < |words| => Plain(words[i]))
  }

  function Line(indent: nat, words: seq<string>): Item {
    Written(indent, Words(words))
  }

  function Block(indent: nat, words: seq<string>, body: seq<Item>): Item {
    Scope(indent, Words(words), 0, body)
  }

  const INVALID_FRAGMENT := "Invalid custom Caddy config for this service"

  // ---- Serving a static service ------------------------------------------------------

  function StaticServing(service: Service, indent: nat): seq<Item> {
    var mode := service.staticRoutingMode.GetOr("spa");
    if mode == "multi-page" then
      [ Line(indent, ["@sitey_page", "file", "{path}", "{path}/index.html", "{path}.html"]),
        Block(indent, ["handle", "@sitey_page"], [
          Line(indent + 4, ["rewrite", "*", "{file_match.relative}"]),
          Line(indent + 4, ["file_server"])]),
        Block(indent, ["handle"], [
          Line(indent + 4, ["@sitey_404", "file", "/404.html"]),
          Block(indent + 4, ["handle", "@sitey_404"], [
            Line(indent + 8, ["rewrite", "*", "/404.html"]),
            Block(indent + 8, ["file_server"], [Line(indent + 12, ["status", "404"])])]),
          Block(indent + 4, ["handle"], [Line(indent + 8, ["respond", "404"])])])]
    else if mode == "caddy" then
      var fragment := service.staticCaddyConfig.GetOr("");
      if CheckOf(fragment).Accepted? then [Custom(indent, fragment)]
      else [Written(indent, [Plain("respond"), Quoted(INVALID_FRAGMENT), Plain("500")])]
    else
      [Line(indent, ["try_files", "{path}", "/index.html"]), Line(indent, ["file_server"])]
  }

  // ---- Routes ------------------------------------------------------------------------

  predicate StaticReady(s: Service) {
    && s.isStatic
    && (s.status == "running"
        || ((s.status == "building" || s.status == "queued") && s.hasSuccessfulDeployment))
  }

  predicate ServerReady(s: Service) {
    !s.isStatic && s.containerName.GetOr("") != "" && s.containerRunning
  }

  function OutputPath(id: nat, outputDir: string): string {
    "/srv/services/" + Decimal(id) + "/repo" + if outputDir == "" then "" else "/" + outputDir
  }

  function RootPieces(id: nat, outputDir: string): seq<Piece> {
    [Plain("root"), Plain("*"), Quoted(OutputPath(id, outputDir))]
  }

  /** What serves the service, after the tags; `n` is the indentation of its lines. */
  function Serving(s: Service, n: nat): seq<Item> {
    if !StaticReady(s) && !ServerReady(s) then
      [ Line(n, ["header", "X-Sitey-Pending", "1"]),
        Line(n, ["root", "*", "/srv/web"]),
        Line(n, ["rewrite", "*", "/pending.html"]),
        Line(n, ["file_server"])]
    else if s.isStatic then
      [Written(n, RootPieces(s.id, s.outputDir))] + StaticServing(s, n)
    else
      [Line(n, ["reverse_proxy", s.containerName.GetOr("") + ":" + Decimal(s.containerPort)])]
  }

  /** `/app` redirects to `/app/`. */
  function Redirect(route: Route): Item {
    Block(4, ["handle", route.pathPrefix],
          [Tag(8, Decimal(route.service.id)), Line(8, ["redir", "*", route.pathPrefix + "/", "308"])])
  }

  /** Every kind of service is written the same way: a redirecting and a serving block, or the bare lines. */
  function RouteBody(route: Route): seq<Item> {
    var s, prefix := route.service, route.pathPrefix;
    if prefix != "" then
      [ Redirect(route),
        Block(4, ["handle_path", prefix + "/*"], [Tag(8, Decimal(s.id))] + Serving(s, 8))]
    else
      [Tag(4, Decimal(s.id))] + Serving(s, 4)
  }

  function RouteHandler(route: Route): seq<Item> {
    if route.pathPrefix != "" then RouteBody(route) else [Scope(4, Words(["handle"]), 4, RouteBody(route))]
  }

  function RouteHandlers(routes: seq<Route>): seq<Item> {
    if routes == [] then [] else RouteHandler(routes[0]) + RouteHandlers(routes[1..])
  }

  // ---- Site blocks -------------------------------------------------------------------

  /** What the generator takes from its environment: where the API and the panel are, and the panel's service. */
  datatype Panel = Panel(serviceId: nat, api: string, web: string)

  const UNKNOWN_SERVICE_ID := 0

  function AdminHandlers(panel: Panel): seq<Item> {
    [ Block(4, ["handle", "/api/*"], [Tag(8, Decimal(panel.serviceId)), Line(8, ["reverse_proxy", panel.api])]),
      Block(4, ["handle"], [Tag(8, Decimal(panel.serviceId))] +
        if panel.web != "" then [Line(8, ["reverse_proxy", panel.web])]
        else [Line(8, ["root", "*", "/srv/web"]),
              Line(8, ["try_files", "{path}", "/index.html"]),
              Line(8, ["file_server"])])]
  }

  function Fallback(): seq<Item> {
    [ Block(4, ["handle"], [Tag(8, Decimal(UNKNOWN_SERVICE_ID)), Line(8, ["error", "404"])]),
      Block(4, ["handle_errors"], [
        Tag(8, Decimal(UNKNOWN_SERVICE_ID)), Line(8, ["root", "*", "/srv/web"]), Line(8, ["rewrite", "*", "/404.html"]),
        Line(8, ["templates"]), Line(8, ["file_server"])])]
  }

  function SiteBody(routes: seq<Route>, panel: Panel): seq<Item> {
    [Line(4, ["import", "requests_log"])] +
    if routes == [] then AdminHandlers(panel)
    else RouteHandlers(routes) + if exists i :: 0 <= i < |routes| && routes[i].pathPrefix == "" then [] else Fallback()
  }

  /** A site block before it is text: its labels, its email and what is in it. */
  datatype Site = Site(labels: seq<string>, email: string, body: seq<Item>)

  /** `labels.join(", ")`. */
  function LabelWords(labels: seq<string>): seq<string> {
    if |labels| <= 1 then labels else [labels[0] + ","] + LabelWords(labels[1..])
  }

  /** The email goes into its line as it is. */
  function TlsText(email: string): string {
    "tls " + email
  }

  function SiteBlock(site: Site): Item {
    Block(0, LabelWords(site.labels), (if site.email != "" then [Verbatim(4, TlsText(site.email))] else []) + site.body)
  }

  function SiteBlocks(sites: seq<Site>): seq<Item> {
    if sites == [] then [] else [SiteBlock(sites[0]), Blank] + SiteBlocks(sites[1..])
  }

  /** The site blocks of the file: the management site on port 80 and on its name, then the hosts. */
  function AllSites(mgmtRoutes: seq<Route>, panel: Panel, named: Option<Site>, sites: seq<Site>): seq<Site> {
    var admin := [Line(4, ["import", "requests_log"])] + RouteHandlers(mgmtRoutes) + AdminHandlers(panel);
    [Site([":80"], "", admin)] + (if named.Some? then [named.value.(body := admin)] else []) + sites
  }

  // ---- Good data ---------------------------------------------------------------------

  /** `isValidOutputDir`. */
  predicate IsValidOutputDir(dir: string) {
    dir != "" ==>
      && (forall i :: 0 <= i < |dir| ==> dir[i] !in "\"\\{}" && dir[i] as int >= 0x20 && dir[i] as int != 0x7F)
      && dir[0] != '/'
      && ".." !in Split(dir, '/')
  }

  predicate GoodWord(s: string) {
    IsTame(s) && s != "{" && s != "}"
  }

  /**
   Names that come from Docker and the environment are words, a path prefix is one as
   `parseRouteString` returns it, and an accepted fragment stays in its block
   (`CaddySite.StaysExactly` says when; `CaddyOddSpace` shows what happens otherwise).
   */
  predicate GoodService(s: Service) {
    && IsValidOutputDir(s.outputDir)
    && (s.containerName.GetOr("") != "" ==> GoodWord(s.containerName.value))
    && (var f := s.staticCaddyConfig.GetOr(""); CheckOf(f).Accepted? ==> StaysInBlock(f))
  }

  predicate GoodRoute(r: Route) {
    GoodService(r.service) && (r.pathPrefix != "" ==> r.pathPrefix[0] == '/' && IsTame(r.pathPrefix))
  }

  predicate GoodRoutes(routes: seq<Route>) {
    forall i :: 0 <= i < |routes| ==> GoodRoute(routes[i])
  }

  predicate GoodPanel(panel: Panel) {
    GoodWord(panel.api) && (panel.web != "" ==> GoodWord(panel.web))
  }

  /** An email whose line stays in its block (`EmailStaysExactly`); the server does not check it. */
  predicate GoodEmail(email: string) {
    TextStays(TlsText(email))
  }

  predicate GoodSite(site: Site) {
    && site.labels != [] && (forall i :: 0 <= i < |site.labels| ==> GoodWord(site.labels[i]))
    && (site.email != "" ==> GoodEmail(site.email))
    && GoodItems(site.body)
  }

  // ---- Every word the generator writes is good ---------------------------------------

  lemma BlockWords()
    ensures GoodWord("handle") && GoodWord("handle_path") && GoodWord("handle_errors") && GoodWord("/api/*")
            && GoodWord("*")
  {
  }

  lemma ServingWords()
    ensures GoodWord("file_server") && GoodWord("root") && GoodWord("/srv/web") && GoodWord("rewrite")
            && GoodWord("try_files")
    ensures GoodWord("/index.html") && GoodWord("{path}") && GoodWord("reverse_proxy")
  {
    ServerWords();
    FileWords();
    hide GoodWord;
  }

  lemma ServerWords()
    ensures GoodWord("file_server") && GoodWord("root") && GoodWord("rewrite") && GoodWord("reverse_proxy")
  {
  }

  lemma FileWords()
    ensures GoodWord("/srv/web") && GoodWord("try_files") && GoodWord("/index.html") && GoodWord("{path}")
  {
  }

  lemma PendingWords()
    ensures GoodWord("header") && GoodWord("X-Sitey-Pending") && GoodWord("1") && GoodWord("/pending.html")
    ensures GoodWord("redir") && GoodWord("308")
  {
  }

  lemma PageWords()
    ensures GoodWord("@sitey_page") && GoodWord("file") && GoodWord("{path}/index.html") && GoodWord("{path}.html")
    ensures GoodWord("{file_match.relative}")
  {
  }

  lemma ErrorWords()
    ensures GoodWord("@sitey_404") && GoodWord("/404.html") && GoodWord("status") && GoodWord("404")
    ensures GoodWord("respond") && GoodWord("500") && GoodWord("error") && GoodWord("templates")
  {
  }

  lemma SiteWords()
    ensures GoodWord("import") && GoodWord("requests_log") && GoodWord("tls") && GoodWord(":80")
  {
  }

  lemma {:induction false} DecimalGood(n: nat)
    ensures GoodWord(Decimal(n)) && forall i :: 0 <= i < |Decimal(n)| ==> '0' <= Decimal(n)[i] <= '9'
  {
    if n >= 10 { DecimalGood(n / 10); }
  }

  lemma LineGood(indent: nat, words: seq<string>)
    requires words != [] && forall i :: 0 <= i < |words| ==> GoodWord(words[i])
    ensures GoodItem(Line(indent, words)) && GoodPieces(Words(words))
  {
    hide GoodWord, GoodPiece, IsTame;
    forall i | 0 <= i < |words| ensures GoodPiece(Words(words)[i]) { GoodWordPiece(words[i]); }
  }

  lemma GoodWordPiece(s: string)
    requires GoodWord(s)
    ensures GoodPiece(Plain(s))
  {
    TameIsGood(s);
  }

  lemma BlockGood(indent: nat, words: seq<string>, body: seq<Item>)
    requires words != [] && (forall i :: 0 <= i < |words| ==> GoodWord(words[i])) && GoodItems(body)
    ensures GoodItem(Block(indent, words, body))
  {
    LineGood(indent, words);
  }

  lemma TagGood(indent: nat, id: nat)
    ensures GoodItem(Tag(indent, Decimal(id)))
  {
    DecimalGood(id);
    GoodWordPiece(Decimal(id));
  }

  lemma StaticServingGood(s: Service, n: nat)
    requires GoodService(s)
    ensures GoodItems(StaticServing(s, n))
  {
    hide GoodWord, IsTame, GoodPiece, Line, Block, GoodItem, CheckOf;
    ServingWords();
    var mode := s.staticRoutingMode.GetOr("spa");
    if mode == "multi-page" {
      PagesGood(n);
    } else if mode == "caddy" {
      CustomGood(s, n);
    } else {
      LineGood(n, ["try_files", "{path}", "/index.html"]);
      LineGood(n, ["file_server"]);
    }
  }

  lemma CustomGood(s: Service, n: nat)
    requires GoodService(s)
    requires s.staticRoutingMode == Some("caddy")
    ensures GoodItems(StaticServing(s, n))
  {
    hide GoodWord, IsTame, GoodPiece, CheckOf, StaysInBlock, GoodItem;
    var f := s.staticCaddyConfig.GetOr("");
    if CheckOf(f).Accepted? { CustomItemGood(n, f); } else { RefusalGood(n); }
  }

  lemma CustomItemGood(n: nat, f: string)
    requires CheckOf(f).Accepted? && StaysInBlock(f)
    ensures GoodItem(Custom(n, f))
  {
  }

  lemma RefusalGood(n: nat)
    ensures GoodItem(Written(n, [Plain("respond"), Quoted(INVALID_FRAGMENT), Plain("500")]))
  {
    hide GoodWord, GoodPiece;
    ErrorWords();
    GoodWordPiece("respond");
    GoodWordPiece("500");
    InvalidFragmentGood();
  }

  lemma InvalidFragmentGood()
    ensures GoodPiece(Quoted(INVALID_FRAGMENT))
  {
  }

  lemma PagesGood(n: nat)
    ensures GoodItems(StaticServing(Service(0, true, "", true, "", None, false, 0, Some("multi-page"), None), n))
  {
    hide GoodWord, IsTame, GoodPiece, Line, Block, GoodItem;
    PageWords();
    ErrorWords();
    ServingWords();
    BlockWords();
    LineGood(n, ["@sitey_page", "file", "{path}", "{path}/index.html", "{path}.html"]);
    LineGood(n + 4, ["rewrite", "*", "{file_match.relative}"]);
    LineGood(n + 4, ["file_server"]);
    BlockGood(n, ["handle", "@sitey_page"],
              [Line(n + 4, ["rewrite", "*", "{file_match.relative}"]), Line(n + 4, ["file_server"])]);
    LineGood(n + 12, ["status", "404"]);
    BlockGood(n + 8, ["file_server"], [Line(n + 12, ["status", "404"])]);
    LineGood(n + 8, ["rewrite", "*", "/404.html"]);
    BlockGood(n + 4, ["handle", "@sitey_404"],
              [Line(n + 8, ["rewrite", "*", "/404.html"]),
               Block(n + 8, ["file_server"], [Line(n + 12, ["status", "404"])])]);
    LineGood(n + 8, ["respond", "404"]);
    BlockGood(n + 4, ["handle"], [Line(n + 8, ["respond", "404"])]);
    LineGood(n + 4, ["@sitey_404", "file", "/404.html"]);
    BlockGood(n, ["handle"], [
      Line(n + 4, ["@sitey_404", "file", "/404.html"]),
      Block(n + 4, ["handle", "@sitey_404"],
            [Line(n + 8, ["rewrite", "*", "/404.html"]),
             Block(n + 8, ["file_server"], [Line(n + 12, ["status", "404"])])]),
      Block(n + 4, ["handle"], [Line(n + 8, ["respond", "404"])])]);
  }

  lemma OutputPathGood(s: Service)
    requires IsValidOutputDir(s.outputDir)
    ensures GoodPiece(Quoted(OutputPath(s.id, s.outputDir)))
  {
    hide Split, IsTame;
    DecimalGood(s.id);
    var base := "/srv/services/" + Decimal(s.id) + "/repo";
    assert forall i :: 0 <= i < |base| ==> base[i] !in "\"\\\n";
    assert OutputPath(s.id, s.outputDir)[0] == '/';
  }

  lemma PendingGood(n: nat)
    ensures GoodItems([ Line(n, ["header", "X-Sitey-Pending", "1"]), Line(n, ["root", "*", "/srv/web"]),
                        Line(n, ["rewrite", "*", "/pending.html"]), Line(n, ["file_server"])])
  {
    hide GoodWord, Line, GoodItem;
    ServingWords();
    BlockWords();
    PendingWords();
    LineGood(n, ["header", "X-Sitey-Pending", "1"]);
    LineGood(n, ["root", "*", "/srv/web"]);
    LineGood(n, ["rewrite", "*", "/pending.html"]);
    LineGood(n, ["file_server"]);
  }

  lemma ServingGood(s: Service, n: nat)
    requires GoodService(s)
    ensures GoodItems(Serving(s, n))
  {
    hide GoodService, GoodWord, Line, GoodItem, StaticServing, RootPieces, Decimal;
    if !StaticReady(s) && !ServerReady(s) {
      PendingGood(n);
    } else if s.isStatic {
      StaticServingGood(s, n);
      RootLineGood(s, n);
    } else {
      ProxyGood(s, n);
    }
  }

  lemma ProxyGood(s: Service, n: nat)
    requires GoodService(s) && s.containerName.GetOr("") != ""
    ensures GoodItem(Line(n, ["reverse_proxy", s.containerName.GetOr("") + ":" + Decimal(s.containerPort)]))
  {
    hide GoodWord, Line, GoodItem, Decimal;
    ServingWords();
    ProxyWord(s);
    LineGood(n, ["reverse_proxy", s.containerName.GetOr("") + ":" + Decimal(s.containerPort)]);
  }

  lemma RootLineGood(s: Service, n: nat)
    requires GoodService(s)
    ensures GoodItem(Written(n, RootPieces(s.id, s.outputDir)))
  {
    hide GoodWord, IsTame, GoodPiece, OutputPath;
    ServingWords();
    BlockWords();
    GoodWordPiece("root");
    GoodWordPiece("*");
    OutputPathGood(s);
  }

  lemma ProxyWord(s: Service)
    requires GoodService(s) && s.containerName.GetOr("") != ""
    ensures GoodWord(s.containerName.GetOr("") + ":" + Decimal(s.containerPort))
  {
    DecimalGood(s.containerPort);
  }

  lemma RedirectGood(r: Route)
    requires GoodRoute(r) && r.pathPrefix != ""
    ensures GoodItem(Redirect(r))
  {
    hide GoodWord, IsTame, Line, GoodItem, Decimal, GoodRoute;
    var id, prefix := r.service.id, r.pathPrefix;
    BlockWords();
    PendingWords();
    TagGood(8, id);
    PrefixWords(r);
    LineGood(8, ["redir", "*", prefix + "/", "308"]);
    BlockGood(4, ["handle", prefix], [Tag(8, Decimal(id)), Line(8, ["redir", "*", prefix + "/", "308"])]);
  }

  lemma TaggedGood(s: Service, n: nat)
    requires GoodService(s)
    ensures GoodItems([Tag(n, Decimal(s.id))] + Serving(s, n))
  {
    hide GoodItem, Serving, Decimal, GoodService;
    TagGood(n, s.id);
    ServingGood(s, n);
  }

  lemma RouteBodyGood(r: Route)
    requires GoodRoute(r)
    ensures GoodItems(RouteBody(r))
  {
    TaggedGood(r.service, if r.pathPrefix != "" then 8 else 4);
    hide GoodWord, Block, GoodItem, Serving, Decimal, GoodService, Redirect, IsTame;
    if r.pathPrefix != "" {
      RedirectGood(r);
      BlockWords();
      PrefixWords(r);
      BlockGood(4, ["handle_path", r.pathPrefix + "/*"], [Tag(8, Decimal(r.service.id))] + Serving(r.service, 8));
    }
  }

  lemma PrefixWords(r: Route)
    requires GoodRoute(r) && r.pathPrefix != ""
    ensures GoodWord(r.pathPrefix) && GoodWord(r.pathPrefix + "/") && GoodWord(r.pathPrefix + "/*")
  {
  }

  lemma {:induction false} RouteHandlersGood(routes: seq<Route>)
    requires GoodRoutes(routes)
    ensures GoodItems(RouteHandlers(routes))
  {
    hide GoodWord, IsTame, GoodPiece, RouteBody;
    if routes != [] {
      RouteBodyGood(routes[0]);
      BlockWords();
      LineGood(4, ["handle"]);
      RouteHandlersGood(routes[1..]);
    }
  }

  lemma AdminHandlersGood(panel: Panel)
    requires GoodPanel(panel)
    ensures GoodItems(AdminHandlers(panel))
  {
    hide GoodWord, IsTame, GoodPiece, Line, Block, GoodItem, Decimal;
    BlockWords();
    ServingWords();
    TagGood(8, panel.serviceId);
    LineGood(8, ["reverse_proxy", panel.api]);
    BlockGood(4, ["handle", "/api/*"], [Tag(8, Decimal(panel.serviceId)), Line(8, ["reverse_proxy", panel.api])]);
    if panel.web != "" {
      LineGood(8, ["reverse_proxy", panel.web]);
      BlockGood(4, ["handle"], [Tag(8, Decimal(panel.serviceId))] + [Line(8, ["reverse_proxy", panel.web])]);
    } else {
      LineGood(8, ["root", "*", "/srv/web"]);
      LineGood(8, ["try_files", "{path}", "/index.html"]);
      LineGood(8, ["file_server"]);
      BlockGood(4, ["handle"], [Tag(8, Decimal(panel.serviceId))] +
        [Line(8, ["root", "*", "/srv/web"]), Line(8, ["try_files", "{path}", "/index.html"]),
         Line(8, ["file_server"])]);
    }
  }

  lemma FallbackGood()
    ensures GoodItems(Fallback())
  {
    hide GoodWord, IsTame, GoodPiece, Line, Block, GoodItem, Decimal;
    BlockWords();
    ServingWords();
    ErrorWords();
    TagGood(8, UNKNOWN_SERVICE_ID);
    LineGood(8, ["error", "404"]);
    BlockGood(4, ["handle"], [Tag(8, Decimal(UNKNOWN_SERVICE_ID)), Line(8, ["error", "404"])]);
    LineGood(8, ["root", "*", "/srv/web"]);
    LineGood(8, ["rewrite", "*", "/404.html"]);
    LineGood(8, ["templates"]);
    LineGood(8, ["file_server"]);
    BlockGood(4, ["handle_errors"], [
      Tag(8, Decimal(UNKNOWN_SERVICE_ID)), Line(8, ["root", "*", "/srv/web"]), Line(8, ["rewrite", "*", "/404.html"]),
      Line(8, ["templates"]), Line(8, ["file_server"])]);
  }

  lemma ImportGood()
    ensures GoodItem(Line(4, ["import", "requests_log"]))
  {
    SiteWords();
    LineGood(4, ["import", "requests_log"]);
  }

  lemma SiteBodyGood(routes: seq<Route>, panel: Panel)
    requires GoodRoutes(routes) && GoodPanel(panel)
    ensures GoodItems(SiteBody(routes, panel))
  {
    hide GoodItem, Line, RouteHandlers, AdminHandlers, Fallback;
    ImportGood();
    RouteHandlersGood(routes);
    AdminHandlersGood(panel);
    FallbackGood();
  }

  // ---- The claims --------------------------------------------------------------------

  /**
   For any routes, with stored fragments that are refused or stay in their block, what the
   generator writes into a site block reads as the tokens it means, and is balanced: it
   never closes the block it stands in and leaves nothing open.
   */
  lemma RouteHandlersBalanced(st: State, routes: seq<Route>)
    requires Ready(st) && GoodRoutes(routes)
    ensures HasRead(st, ReadLines(st, Lines(RouteHandlers(routes), 0)), Shapes(RouteHandlers(routes), 0))
    ensures Balanced(Shapes(RouteHandlers(routes), 0))
  {
    hide RouteHandlers, Ready, HasRead, Balanced, ReadLines;
    RouteHandlersGood(routes);
    GoodIsLegible(RouteHandlers(routes));
    ReadItems(st, RouteHandlers(routes), 0);
    ItemsBalanced(RouteHandlers(routes), 0);
  }

  /** The tokens in front of a fragment in its block: the tags and the root. */
  function Setup(s: Service): seq<Shape> {
    ItemShapes(Tag(0, Decimal(s.id)), 0) + PieceShapes(RootPieces(s.id, s.outputDir))
  }

  /** A ready static service in `caddy` mode whose stored fragment passes the check. */
  ghost predicate ServesFragment(s: Service, f: string) {
    StaticReady(s) && s.staticRoutingMode == Some("caddy") && s.staticCaddyConfig.GetOr("") == f && CheckOf(f).Accepted?
  }

  /** What a path-prefix route with a fragment is read as: its own block has the fragment's tokens. */
  function PrefixShapes(r: Route, f: string): seq<Shape> {
    ItemShapes(Redirect(r), 0)
    + (PieceShapes(Words(["handle_path", r.pathPrefix + "/*"])) + [Shape("{", false)]
       + (Setup(r.service) + OwnShapes(f, 0)) + [Shape("}", false)])
  }

  /** In a root route the lines inside the fragment's quotes are four columns deeper as well. */
  function RootShapes(r: Route, f: string): seq<Shape> {
    PieceShapes(Words(["handle"])) + [Shape("{", false)]
    + (Setup(r.service) + OwnShapes(f, 4)) + [Shape("}", false)]
  }

  /** What stands in the block of a route with a fragment. */
  function Inside(s: Service, f: string, n: nat): seq<Item> {
    [Tag(n, Decimal(s.id)), Written(n, RootPieces(s.id, s.outputDir)), Custom(n, f)]
  }

  lemma InsideServing(s: Service, f: string, n: nat)
    requires ServesFragment(s, f)
    ensures [Tag(n, Decimal(s.id))] + Serving(s, n) == Inside(s, f, n)
  {
    hide CheckOf, Decimal, OutputPath, Serving;
    CustomServing(s, n);
  }

  lemma InsideShapes(s: Service, f: string, n: nat, pad: nat)
    requires KeepsTokens(f)
    ensures Shapes(Inside(s, f, n), pad) == Setup(s) + OwnShapes(f, pad)
  {
    KeptShapes(f, n, pad);
    hide FragmentShapes, OwnShapes, PieceShapes, Decimal, OutputPath, TagPieces;
    ThreeShapes(Tag(n, Decimal(s.id)), Written(n, RootPieces(s.id, s.outputDir)), Custom(n, f), pad);
  }

  lemma BlockShapes(header: seq<Piece>, indent: nat, deeper: nat, body: seq<Item>, pad: nat)
    ensures ItemShapes(Scope(indent, header, deeper, body), pad) ==
            PieceShapes(header) + [Shape("{", false)] + Shapes(body, pad + deeper) + [Shape("}", false)]
  {
  }

  lemma HandlerOf(r: Route)
    requires r.pathPrefix == ""
    ensures RouteHandler(r) == [Scope(4, Words(["handle"]), 4, [Tag(4, Decimal(r.service.id))] + Serving(r.service, 4))]
  {
    hide Serving, Decimal;
  }

  lemma PrefixHandlerOf(r: Route)
    requires r.pathPrefix != ""
    ensures RouteHandler(r) == [Redirect(r), Scope(4, Words(["handle_path", r.pathPrefix + "/*"]), 0,
                                                   [Tag(8, Decimal(r.service.id))] + Serving(r.service, 8))]
  {
    hide Serving, Decimal, Redirect;
  }

  lemma PrefixDocument(r: Route, f: string)
    requires ServesFragment(r.service, f) && KeepsTokens(f) && r.pathPrefix != ""
    ensures Shapes(RouteHandler(r), 0) == PrefixShapes(r, f)
  {
    hide ServesFragment, Serving, OwnShapes, KeepsTokens, PieceShapes, Words, Decimal, Redirect, Setup;
    hide Shapes, ItemShapes, Inside, RouteHandler;
    var header := Words(["handle_path", r.pathPrefix + "/*"]);
    PrefixHandlerOf(r);
    InsideServing(r.service, f, 8);
    InsideShapes(r.service, f, 8, 0);
    BlockShapes(header, 4, 0, Inside(r.service, f, 8), 0);
    TwoShapes(Redirect(r), Scope(4, header, 0, Inside(r.service, f, 8)), 0);
  }

  lemma RootDocument(r: Route, f: string)
    requires ServesFragment(r.service, f) && KeepsTokens(f) && r.pathPrefix == ""
    ensures Shapes(RouteHandler(r), 0) == RootShapes(r, f)
  {
    hide ServesFragment, Serving, OwnShapes, KeepsTokens, PieceShapes, Words, Decimal, Setup;
    hide Shapes, ItemShapes, Inside, RouteHandler;
    HandlerOf(r);
    InsideServing(r.service, f, 4);
    InsideShapes(r.service, f, 4, 4);
    BlockShapes(Words(["handle"]), 4, 4, Inside(r.service, f, 4), 0);
    OneShapes(Scope(4, Words(["handle"]), 4, Inside(r.service, f, 4)), 0);
  }

  /** The text of a path-prefix route reads as the fragment's own tokens in its own block, unchanged but for CRLF. */
  lemma CustomPrefixTokens(st: State, r: Route, f: string)
    requires Ready(st) && GoodRoute(r) && ServesFragment(r.service, f) && KeepsTokens(f) && r.pathPrefix != ""
    ensures HasRead(st, ReadLines(st, Lines(RouteHandler(r), 0)), PrefixShapes(r, f))
  {
    hide Ready, HasRead, ReadLines, Lines, GoodRoute, ServesFragment, KeepsTokens, PrefixShapes, RouteHandler, Shapes;
    HandlerRead(st, r);
    PrefixDocument(r, f);
  }

  lemma CustomRootTokens(st: State, r: Route, f: string)
    requires Ready(st) && GoodRoute(r) && ServesFragment(r.service, f) && KeepsTokens(f) && r.pathPrefix == ""
    ensures HasRead(st, ReadLines(st, Lines(RouteHandler(r), 0)), RootShapes(r, f))
  {
    hide Ready, HasRead, ReadLines, Lines, GoodRoute, ServesFragment, KeepsTokens, RootShapes, RouteHandler, Shapes;
    HandlerRead(st, r);
    RootDocument(r, f);
  }

  /** The text of one route's handlers reads as its document. */
  lemma HandlerRead(st: State, r: Route)
    requires Ready(st) && GoodRoute(r)
    ensures HasRead(st, ReadLines(st, Lines(RouteHandler(r), 0)), Shapes(RouteHandler(r), 0))
  {
    hide Ready, HasRead, ReadLines, RouteHandler, GoodRoute;
    RouteHandlersGood([r]);
    assert RouteHandlers([r]) == RouteHandler(r) by { OneHandler(r); }
    GoodIsLegible(RouteHandler(r));
    ReadItems(st, RouteHandler(r), 0);
  }

  lemma OneHandler(r: Route)
    ensures RouteHandlers([r]) == RouteHandler(r)
  {
    assert [r][1..] == [] && RouteHandlers([]) == [];
  }

  lemma CustomServing(s: Service, n: nat)
    requires StaticReady(s) && s.staticRoutingMode == Some("caddy")
    requires CheckOf(s.staticCaddyConfig.GetOr("")).Accepted?
    ensures Serving(s, n) == [Written(n, RootPieces(s.id, s.outputDir)),
                              Custom(n, s.staticCaddyConfig.GetOr(""))]
  {
    hide CheckOf, OutputPath;
    assert StaticServing(s, n) == [Custom(n, s.staticCaddyConfig.GetOr(""))];
  }

  lemma OneShapes(a: Item, pad: nat)
    ensures Shapes([a], pad) == ItemShapes(a, pad)
  {
    hide ItemShapes;
    assert [a][1..] == [];
  }

  lemma TwoShapes(a: Item, b: Item, pad: nat)
    ensures Shapes([a, b], pad) == ItemShapes(a, pad) + ItemShapes(b, pad)
  {
    hide ItemShapes;
    assert [a, b][1..] == [b];
    OneShapes(b, pad);
  }

  lemma ThreeShapes(a: Item, b: Item, c: Item, pad: nat)
    ensures Shapes([a, b, c], pad) == ItemShapes(a, pad) + ItemShapes(b, pad) + ItemShapes(c, pad)
  {
    hide ItemShapes;
    assert [a, b, c][1..] == [b, c];
    TwoShapes(b, c, pad);
  }

  // ---- The whole file ----------------------------------------------------------------

  lemma {:induction false} LabelWordsGood(labels: seq<string>)
    requires forall i :: 0 <= i < |labels| ==> GoodWord(labels[i])
    ensures |LabelWords(labels)| == |labels| && forall i :: 0 <= i < |labels| ==> GoodWord(LabelWords(labels)[i])
  {
    if |labels| > 1 {
      LabelWordsGood(labels[1..]);
      assert GoodWord(labels[0] + ",");
    }
  }

  lemma SiteBlockGood(site: Site)
    requires GoodSite(site)
    ensures GoodItem(SiteBlock(site))
  {
    hide GoodWord, TextStays, TlsText, Line, LabelWords;
    LabelWordsGood(site.labels);
    var tls := if site.email != "" then [Verbatim(4, TlsText(site.email))] else [];
    if site.email != "" { assert GoodItem(Verbatim(4, TlsText(site.email))); }
    hide GoodItem;
    BlockGood(0, LabelWords(site.labels), tls + site.body);
  }

  lemma {:induction false} SiteBlocksGood(sites: seq<Site>)
    requires forall i :: 0 <= i < |sites| ==> GoodSite(sites[i])
    ensures GoodItems(SiteBlocks(sites))
    ensures forall i :: 0 <= i < |SiteBlocks(sites)| ==> SiteBlocks(sites)[i].Scope? || SiteBlocks(sites)[i].Blank?
    ensures sites != [] ==> SiteBlocks(sites) != []
  {
    if sites != [] {
      hide GoodSite;
      SiteBlockGood(sites[0]);
      SiteBlocksGood(sites[1..]);
    }
  }

  /** The text of a document read from the start of a file. */
  lemma DocumentTokens(items: seq<Item>)
    requires LegibleItems(items) && Lines(items, 0) != []
    ensures var lexed := LexOf(Join(Lines(items, 0))); lexed.Tokens? && ShapesOf(lexed.tokens) == Shapes(items, 0)
  {
    hide Run, LegibleItems, Lines, Shapes;
    ReadItems(START, items, 0);
    ReadJoined(START, Lines(items, 0));
    var e := Run(START, Join(Lines(items, 0)));
    assert Step(e, '\n', "").tokens[0..] == Step(e, '\n', "").tokens;
  }

  /** The labels of the sites, each followed by its opening brace: what the top level should be. */
  function SiteHeaders(sites: seq<Site>): seq<Shape> {
    if sites == [] then []
    else PieceShapes(Words(LabelWords(sites[0].labels))) + [Shape("{", false)] + SiteHeaders(sites[1..])
  }

  lemma {:induction false} HeadersOfSites(sites: seq<Site>)
    ensures Headers(SiteBlocks(sites)) == SiteHeaders(sites)
  {
    if sites != [] {
      HeadersOfSites(sites[1..]);
      var all := SiteBlocks(sites);
      assert all[1..] == [Blank] + SiteBlocks(sites[1..]) && all[1..][1..] == SiteBlocks(sites[1..]);
      assert [] + SiteHeaders(sites[1..]) == SiteHeaders(sites[1..]);
    }
  }

  lemma AllSitesGood(mgmtRoutes: seq<Route>, panel: Panel, named: Option<Site>, sites: seq<Site>)
    requires GoodRoutes(mgmtRoutes) && GoodPanel(panel)
    requires forall i :: 0 <= i < |sites| ==> GoodSite(sites[i])
    requires named.Some? ==> GoodSite(named.value)
    ensures var all := AllSites(mgmtRoutes, panel, named, sites); forall i :: 0 <= i < |all| ==> GoodSite(all[i])
  {
    hide RouteHandlers, AdminHandlers, GoodItem, GoodWord, Line, GoodRoute;
    ImportGood();
    RouteHandlersGood(mgmtRoutes);
    AdminHandlersGood(panel);
    SiteWords();
  }

  /**
   The file tokenizes, and its top-level blocks are exactly the generated ones, in order,
   whatever routes went into them, with fragments that are refused or stay in their block.
   */
  lemma FileTopLevel(mgmtRoutes: seq<Route>, panel: Panel, named: Option<Site>, sites: seq<Site>)
    requires GoodRoutes(mgmtRoutes) && GoodPanel(panel)
    requires forall i :: 0 <= i < |sites| ==> GoodSite(sites[i])
    requires named.Some? ==> GoodSite(named.value)
    ensures var all := AllSites(mgmtRoutes, panel, named, sites);
            var lexed := LexOf(Join(Lines(SiteBlocks(all), 0)));
            lexed.Tokens? && TopLevel(ShapesOf(lexed.tokens), 0) == SiteHeaders(all)
  {
    hide Lines, Shapes, AllSites, GoodItem, GoodSite, GoodRoutes, GoodPanel, LexOf, TopLevel, SiteHeaders, Headers;
    var all := AllSites(mgmtRoutes, panel, named, sites);
    AllSitesGood(mgmtRoutes, panel, named, sites);
    AllSitesNonempty(mgmtRoutes, panel, named, sites);
    SiteBlocksGood(all);
    HeadersOfSites(all);
    LinesNonempty(SiteBlocks(all));
    GoodIsLegible(SiteBlocks(all));
    DocumentTokens(SiteBlocks(all));
    TopLevelAsGenerated(SiteBlocks(all));
  }

  lemma AllSitesNonempty(mgmtRoutes: seq<Route>, panel: Panel, named: Option<Site>, sites: seq<Site>)
    ensures AllSites(mgmtRoutes, panel, named, sites) != []
  {
  }

  lemma LinesNonempty(items: seq<Item>)
    requires items != [] && (items[0].Scope? || items[0].Blank?)
    ensures Lines(items, 0) != []
  {
  }

  lemma BlockLegible(words: seq<string>, body: seq<Item>)
    requires LegibleItem(Line(0, words)) && LegibleItems(body)
    ensures LegibleItems([Block(0, words, body)])
  {
    hide Legible;
    assert LegibleItem(Block(0, words, body));
  }

  // ---- Emails --------------------------------------------------------------------------

  /**
   The line of an email is read as balanced tokens, wherever it stands, if and only if the
   line alone is.
   */
  lemma EmailStaysExactly(st: State, email: string)
    requires Ready(st)
    ensures ReadsBalanced(st, ItemLines(Verbatim(4, TlsText(email)), 0)) <==> GoodEmail(email)
  {
    TextStaysExactly(st, 4, 0, TlsText(email));
  }

  /** A plain word, for one, is an email that stays in its block. */
  lemma WordEmailGood(email: string)
    requires GoodWord(email)
    ensures GoodEmail(email)
  {
    SiteWords();
    hide GoodWord, Balanced, LexOf;
    TlsTokens(Words(["tls", email]), email) by {
      assert Words(["tls", email]) == [Plain("tls")] + [Plain(email)];
      LineGood(0, ["tls", email]);
      GoodIsLegible([Line(0, ["tls", email])]);
    }
    LineGood(0, ["tls", email]);
    PiecesBalanced(Words(["tls", email]));
  }

  /** The `tls` line of an email, read as pieces that have its text. */
  lemma TlsTokens(pieces: seq<Piece>, email: string)
    requires LegibleItems([Written(0, pieces)]) && PiecesText(pieces) == TlsText(email)
    ensures LexOf(TlsText(email)).Tokens? && TextShapes(TlsText(email)) == PieceShapes(pieces)
  {
    hide LexOf, Shapes, PieceShapes, LegibleItems, PiecesText, TlsText;
    var line := Written(0, pieces);
    OneLines(line, 0);
    OneShapes(line, 0);
    assert Spaces(0) == "" && "" + ("" + TlsText(email)) == TlsText(email);
    DocumentTokens([line]);
    assert Join([TlsText(email)]) == TlsText(email);
  }

  lemma SiteLegible(labels: seq<string>, email: string, body: seq<Item>)
    requires GoodSite(Site(labels, "", body)) && LexOf(TlsText(email)).Tokens? && email != ""
    ensures LegibleItems([SiteBlock(Site(labels, email, body))])
  {
    LabelWordsGood(labels);
    hide GoodWord, LabelWords, Legible, LexOf;
    LineGood(0, LabelWords(labels));
    GoodIsLegible(body);
    GoodIsLegible([Line(0, LabelWords(labels))]);
    VerbatimLegible(4, TlsText(email), body);
    BlockLegible(LabelWords(labels), [Verbatim(4, TlsText(email))] + body);
  }

  lemma VerbatimLegible(indent: nat, text: string, body: seq<Item>)
    requires LexOf(text).Tokens? && LegibleItems(body)
    ensures LegibleItems([Verbatim(indent, text)] + body)
  {
    hide LexOf, Legible;
  }

  lemma SiteDepth(labels: seq<string>, email: string, body: seq<Item>)
    requires GoodSite(Site(labels, "", body)) && email != ""
    ensures Depth(Shapes([SiteBlock(Site(labels, email, body))], 0)) == Depth(TextShapes(TlsText(email)))
  {
    hide LabelWords, GoodWord, GoodItems, Shapes, TextShapes, TlsText, Depth, SiteBlock;
    SiteShapes(labels, email, body);
    LabelsBalanced(labels);
    ItemsBalanced(body, 0);
    BlockDepth(PieceShapes(Words(LabelWords(labels))), TextShapes(TlsText(email)) + Shapes(body, 0));
    DepthThen(TextShapes(TlsText(email)), Shapes(body, 0));
  }

  lemma SiteShapes(labels: seq<string>, email: string, body: seq<Item>)
    requires email != ""
    ensures Shapes([SiteBlock(Site(labels, email, body))], 0) ==
            PieceShapes(Words(LabelWords(labels))) + [Shape("{", false)]
            + (TextShapes(TlsText(email)) + Shapes(body, 0)) + [Shape("}", false)]
  {
    var words, tls := LabelWords(labels), Verbatim(4, TlsText(email));
    OneShapes(SiteBlock(Site(labels, email, body)), 0);
    BlockShapes(Words(words), 0, 0, [tls] + body, 0);
    hide LabelWords, Words, Shapes, PieceShapes, TextShapes, TlsText;
    DocumentThen([tls], body, 0);
    OneShapes(tls, 0);
  }

  lemma LabelsBalanced(labels: seq<string>)
    requires labels != [] && forall i :: 0 <= i < |labels| ==> GoodWord(labels[i])
    ensures Balanced(PieceShapes(Words(LabelWords(labels))))
  {
    hide *;
    LabelWordsGood(labels);
    LineGood(0, LabelWords(labels));
    PiecesBalanced(Words(LabelWords(labels)));
  }

  /** A block leaves as much open as its body does. */
  lemma BlockDepth(header: seq<Shape>, inner: seq<Shape>)
    requires Balanced(header)
    ensures Depth(header + [Shape("{", false)] + inner + [Shape("}", false)]) == Depth(inner)
  {
    hide Depth;
    DepthThen(header, [Shape("{", false)]);
    DepthThen(header + [Shape("{", false)], inner);
    DepthThen(header + [Shape("{", false)] + inner, [Shape("}", false)]);
    BraceDepth();
  }

  lemma BraceDepth()
    ensures Depth([Shape("{", false)]) == 1 && Depth([Shape("}", false)]) == -1
  {
    DepthOne(Shape("{", false));
    DepthOne(Shape("}", false));
  }

  /**
   An email whose `tls` line tokenizes leaves the block of a site that is otherwise good as
   many braces open as its line does: whatever follows in the file is that much deeper.
   */
  lemma EmailLeavesOpen(st: State, labels: seq<string>, email: string, body: seq<Item>)
    requires Ready(st) && GoodSite(Site(labels, "", body)) && email != "" && LexOf(TlsText(email)).Tokens?
    ensures var site := [SiteBlock(Site(labels, email, body))];
      && HasRead(st, ReadLines(st, Lines(site, 0)), Shapes(site, 0))
      && Depth(Shapes(site, 0)) == Depth(TextShapes(TlsText(email)))
  {
    SiteLegible(labels, email, body);
    SiteDepth(labels, email, body);
    hide Ready, HasRead, ReadLines, SiteBlock, Lines, Shapes, LegibleItems, GoodSite;
    ReadItems(st, [SiteBlock(Site(labels, email, body))], 0);
  }

  /** The server only trims an email, which leaves this one as it is. */
  const OPEN_EMAIL := "a {"

  /** Its line leaves one brace open. */
  lemma OpenEmail()
    ensures !GoodEmail(OPEN_EMAIL) && LexOf(TlsText(OPEN_EMAIL)).Tokens?
    ensures Depth(TextShapes(TlsText(OPEN_EMAIL))) == 1
  {
    var pieces := [Plain("tls"), Plain("a"), OPEN];
    OpenEmailText();
    OpenEmailLegible();
    hide LexOf, PiecesText, TlsText;
    TlsTokens(pieces, OPEN_EMAIL);
    var words := [Shape("tls", false), Shape("a", false)];
    assert PieceShapes(pieces) == words + [Shape("{", false)];
    FlatBalanced(words);
    DepthThen(words, [Shape("{", false)]);
    BraceDepth();
  }

  lemma OpenEmailText()
    ensures PiecesText([Plain("tls"), Plain("a"), OPEN]) == TlsText(OPEN_EMAIL)
  {
    var pieces := [Plain("tls"), Plain("a"), OPEN];
    assert pieces[1..] == [Plain("a"), OPEN] && pieces[1..][1..] == [OPEN];
    assert PiecesText([OPEN]) == "{" && PiecesText([Plain("a"), OPEN]) == "a" + " " + "{";
    assert PiecesText(pieces) == "tls" + " " + ("a" + " " + "{") == "tls a {";
    assert TlsText(OPEN_EMAIL) == "tls a {";
  }

  lemma OpenEmailLegible()
    ensures LegibleItems([Written(0, [Plain("tls"), Plain("a"), OPEN])])
  {
    SiteWords();
    GoodWordPiece("tls");
    AWord();
    GoodWordPiece("a");
    hide GoodPiece, GoodWord;
    assert Legible([Plain("tls"), Plain("a"), OPEN]);
  }

  lemma AWord()
    ensures GoodWord("a")
  {
  }

  // ---- The validation file -----------------------------------------------------------

  const VALIDATION_HOST := "sitey-validate.invalid"
  const FRAGMENT_LINE_OFFSET := 5

  function ValidationRoute(fragment: string, id: nat, outputDir: string): Route {
    Route("", Service(id, true, "running", true, outputDir, None, false, 0, Some("caddy"), Some(fragment)))
  }

  function ValidationLines(fragment: string, id: nat, outputDir: string): seq<string> {
    Lines([Block(0, ["http://" + VALIDATION_HOST], RouteHandler(ValidationRoute(fragment, id, outputDir))), Blank], 0)
  }

  lemma HostGood()
    ensures GoodWord("http://" + VALIDATION_HOST)
  {
  }

  /** The line of the site, the line of its handler. */
  lemma ValidationHeader() returns (e: State)
    ensures Ready(e) && e.line == 3 && |e.tokens| == 4
    ensures e == ReadLines(ReadLines(START, [ValidationLine(0)]), [ValidationLine(1)])
  {
    hide Run, Step, ReadLines, LineText, GoodPiece, GoodWord, IsTame;
    HostGood();
    BlockWords();
    LineGood(0, ["http://" + VALIDATION_HOST]);
    LineGood(4, ["handle"]);
    ReadWritten(START, 0, 0, Words(["http://" + VALIDATION_HOST]) + [OPEN]);
    var a := ReadLines(START, [ValidationLine(0)]);
    ReadWritten(a, 0, 4, Words(["handle"]) + [OPEN]);
    e := ReadLines(a, [ValidationLine(1)]);
  }

  function ValidationLine(i: nat): string {
    if i == 0 then Spaces(0) + LineText(0, Words(["http://" + VALIDATION_HOST]) + [OPEN])
    else Spaces(0) + LineText(4, Words(["handle"]) + [OPEN])
  }

  function ValidationSetup(id: nat, outputDir: string): seq<string> {
    [ValidationLine(0), ValidationLine(1), Spaces(4) + TagText(4, Decimal(id)),
     Spaces(4) + LineText(4, RootPieces(id, outputDir))]
  }

  /** What stands before the fragment: five lines and thirteen tokens. */
  lemma ValidationStart(id: nat, outputDir: string, rest: seq<string>) returns (e: State)
    requires IsValidOutputDir(outputDir)
    ensures Ready(e) && e.line == 1 + FRAGMENT_LINE_OFFSET && |e.tokens| == 13
    ensures ReadLines(START, ValidationSetup(id, outputDir) + rest) == ReadLines(e, rest)
  {
    hide Run, Step, ReadLines, LineText, TagText, GoodPiece, Decimal, TagPieces, ValidationLine;
    var b := ValidationHeader();
    TagGood(4, id);
    ReadTag(b, 4, 4, Decimal(id));
    var tag, root := Spaces(4) + TagText(4, Decimal(id)), Spaces(4) + LineText(4, RootPieces(id, outputDir));
    ReadOne(b, tag);
    TagCount(id);
    var c := ReadLines(b, [tag]);
    RootLineGood(ValidationRoute("", id, outputDir).service, 4);
    ReadWritten(c, 4, 4, RootPieces(id, outputDir));
    e := ReadLines(c, [root]);
    FourThen(START, ValidationLine(0), ValidationLine(1), tag, root, rest);
  }

  lemma TagCount(id: nat)
    ensures |ItemShapes(Tag(4, Decimal(id)), 4)| == 6
  {
  }

  lemma FourThen(st: State, a: string, b: string, c: string, d: string, rest: seq<string>)
    ensures ReadLines(st, [a, b, c, d] + rest) ==
            ReadLines(ReadLines(ReadLines(ReadLines(ReadLines(st, [a]), [b]), [c]), [d]), rest)
  {
    hide ReadLines;
    ReadLinesThen(st, [a, b, c, d], rest);
    ReadLinesThen(st, [a, b, c], [d]);
    ReadLinesThen3(st, [a], [b], [c]);
    assert [a, b, c, d] == [a, b, c] + [d] && [a, b, c] == [a] + [b] + [c];
  }

  /** The lines that close the handler and the site. */
  const CLOSERS := [Spaces(0) + LineText(4, [CLOSE]), Spaces(0) + LineText(0, [CLOSE]), ""]

  lemma ValidationText(f: string, id: nat, outputDir: string)
    requires CheckOf(f).Accepted?
    ensures ValidationLines(f, id, outputDir) ==
            ValidationSetup(id, outputDir) + (Prefixed(Spaces(4), FragmentLines(4, f)) + CLOSERS)
  {
    hide LineText, TagText, FragmentLines, Prefixed, Decimal, OutputPath, Words, CheckOf;
    var r := ValidationRoute(f, id, outputDir);
    var tag, root := Tag(4, Decimal(id)), Written(4, RootPieces(id, outputDir));
    CustomServing(r.service, 4);
    assert [tag] + Serving(r.service, 4) == [tag, root, Custom(4, f)];
    ThreeLines(tag, root, Custom(4, f), 4);
    OneLines(Scope(4, Words(["handle"]), 4, [tag, root, Custom(4, f)]), 0);
    TwoLines(Block(0, ["http://" + VALIDATION_HOST], RouteHandler(r)), Blank, 0);
  }

  lemma OneLines(a: Item, pad: nat)
    ensures Lines([a], pad) == ItemLines(a, pad)
  {
    hide ItemLines;
    assert [a][1..] == [];
  }

  lemma TwoLines(a: Item, b: Item, pad: nat)
    ensures Lines([a, b], pad) == ItemLines(a, pad) + ItemLines(b, pad)
  {
    hide ItemLines;
    assert [a, b][1..] == [b];
    OneLines(b, pad);
  }

  lemma ThreeLines(a: Item, b: Item, c: Item, pad: nat)
    ensures Lines([a, b, c], pad) == ItemLines(a, pad) + ItemLines(b, pad) + ItemLines(c, pad)
  {
    hide ItemLines;
    assert [a, b, c][1..] == [b, c];
    TwoLines(b, c, pad);
  }

  /**
   In the file that Caddy validates before a fragment is saved, the fragment's tokens
   stand together, in order, each exactly `FRAGMENT_LINE_OFFSET` lines further down: the
   line numbers Caddy reports, less five, are the fragment's own.
   */
  lemma ValidationTokens(f: string, id: nat, outputDir: string)
    requires CheckOf(f).Accepted? && KeepsTokens(f) && IsValidOutputDir(outputDir)
    ensures var lexed, own := LexOf(Join(ValidationLines(f, id, outputDir))), LexOf(f);
            && lexed.Tokens? && own.Tokens?
            && |lexed.tokens| == 13 + |own.tokens| + 2
            && lexed.tokens[13..13 + |own.tokens|] == Moved(f, FRAGMENT_LINE_OFFSET, Spaces(4))
  {
    hide Run, Step, ReadLines, LexOf, CheckOf, Moved, Prefixed, FragmentLines, ValidationSetup, IsValidOutputDir;
    var fragment := Prefixed(Spaces(4), FragmentLines(4, f));
    AcceptedTokenizes(f);
    ValidationText(f, id, outputDir);
    var b := ValidationStart(id, outputDir, fragment + CLOSERS);
    ReadLinesThen(b, fragment, CLOSERS);
    var c := FragmentAt(b, f);
    var d := Closed(c);
    assert CLOSERS == [CLOSERS[0], CLOSERS[1], CLOSERS[2]];
    FileTokens(ValidationLines(f, id, outputDir), d);
  }

  lemma FragmentAt(b: State, f: string) returns (c: State)
    requires Ready(b) && KeepsTokens(f)
    ensures Ready(c) && c == ReadLines(b, Prefixed(Spaces(4), FragmentLines(4, f)))
    ensures c.tokens == b.tokens + Moved(f, b.line - 1, Spaces(4))
  {
    hide LexOf, Run, Moved, PlainEnd, PlainLeads;
    SpliceTokens(b, f, Spaces(4), Spaces(4));
    ReadJoined(b, Prefixed(Spaces(4), IndentFragment(f, Spaces(4))));
    ContinuationsLater(b, Join(Prefixed(Spaces(4), IndentFragment(f, Spaces(4)))));
    c := ReadLines(b, Prefixed(Spaces(4), FragmentLines(4, f)));
  }

  lemma Closed(c: State) returns (d: State)
    requires Ready(c)
    ensures d == ReadLines(c, CLOSERS) && Ready(d)
    ensures |d.tokens| == |c.tokens| + 2 && d.tokens[..|c.tokens|] == c.tokens
  {
    hide Run, ReadLines, LineText;
    ReadWritten(c, 0, 4, [CLOSE]);
    var c1 := ReadLines(c, [CLOSERS[0]]);
    ReadWritten(c1, 0, 0, [CLOSE]);
    var c2 := ReadLines(c1, [CLOSERS[1]]);
    ReadOne(c2, "");
    d := ReadLines(c2, [""]);
    RunNothing(c2);
    ReadLinesThen3(c, [CLOSERS[0]], [CLOSERS[1]], [CLOSERS[2]]);
    assert CLOSERS == [CLOSERS[0]] + [CLOSERS[1]] + [CLOSERS[2]];
  }

  /** The tokens of a file are those read line by line. */
  lemma FileTokens(lines: seq<string>, e: State)
    requires lines != [] && ReadLines(START, lines) == e && Ready(e)
    ensures LexOf(Join(lines)).Tokens? && LexOf(Join(lines)).tokens == e.tokens
  {
    hide Run, ReadLines;
    ReadJoined(START, lines);
  }
}
