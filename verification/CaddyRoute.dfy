/**
 What the generated text says about a route, a site and the panel (`appendRouteBody` to
 `buildSiteBlockBodyLines` in caddy.ts, `staticServingLines` in staticRouting.ts), as the
 tokens the tokenizer reads, from the fields of the service and the route.

 `HandlerTokens`, `BodyTokens` and `FileReads` are the main results; `Content` says what
 a service is served with, and `ContentMeans` when that is the placeholder.
 */
module CaddyRoute {
  import opened Text
  import opened Wrappers
  import C = CaddyChecker
  import opened CaddyLexer
  import opened CaddyRender
  import opened CaddySite
  import opened CaddyFile

  // ---- Numerals --------------------------------------------------------------------

  predicate IsNumeral(s: string) {
    s != "" && (s[0] == '0' ==> s == "0") && forall i :: 0 <= i < |s| ==> '0' <= s[i] <= '9'
  }

  function Value(s: string): int {
    if s == "" then 0 else Value(s[..|s| - 1]) * 10 + (s[|s| - 1] as int - '0' as int)
  }

  lemma {:induction false} DecimalReads(n: nat)
    ensures IsNumeral(Decimal(n)) && Value(Decimal(n)) == n
    ensures n > 0 ==> Decimal(n)[0] != '0'
  {
    var last := [('0' as int + n % 10) as char];
    if n < 10 {
      assert Decimal(n) == "" + last == last;
      assert last[..0] == "";
    } else {
      var init := Decimal(n / 10);
      DecimalReads(n / 10);
      assert Decimal(n) == init + last;
      assert (init + last)[..|init|] == init;
    }
  }

  /** The digits written for a number are the one numeral that is read back as it. */
  lemma DecimalExactly(s: string, n: nat)
    ensures s == Decimal(n) <==> IsNumeral(s) && Value(s) == n
  {
    DecimalReads(n);
    if IsNumeral(s) && Value(s) == n { OneNumeral(s, n); }
  }

  lemma {:induction false} OneNumeral(s: string, n: nat)
    requires IsNumeral(s) && Value(s) == n
    ensures s == Decimal(n)
    decreases |s|
  {
    if |s| == 1 {
      OneDigit(s, n);
    } else {
      LastDigit(s, n);
      hide IsNumeral, Value;
      OneNumeral(s[..|s| - 1], n / 10);
      assert s == s[..|s| - 1] + [s[|s| - 1]];
    }
  }

  lemma OneDigit(s: string, n: nat)
    requires |s| == 1 && IsNumeral(s) && Value(s) == n
    ensures s == Decimal(n)
  {
    assert s[..0] == "" && s == "" + [s[0]];
  }

  lemma LastDigit(s: string, n: nat)
    requires |s| >= 2 && IsNumeral(s) && Value(s) == n
    ensures var init := s[..|s| - 1];
      n >= 10 && IsNumeral(init) && Value(init) == n / 10 && s[|s| - 1] == ('0' as int + n % 10) as char
  {
    ValueGrows(s[..|s| - 1]);
  }

  lemma {:induction false} ValueGrows(s: string)
    requires IsNumeral(s) && s[0] != '0'
    ensures Value(s) >= 1
    decreases |s|
  {
    if |s| > 1 { ValueGrows(s[..|s| - 1]); } else { assert s[..0] == ""; }
  }

  // ---- What a service is served with -----------------------------------------------

  /** Words without quotes. */
  function Plains(words: seq<string>): seq<Shape> {
    PieceShapes(Words(words))
  }

  function Braced(header: seq<string>, body: seq<Shape>): seq<Shape> {
    Plains(header) + [Shape("{", false)] + body + [Shape("}", false)]
  }

  function Tagged(id: nat): seq<Shape> {
    Plains(["log_append", "service_id", Decimal(id)]) + Plains(["header", ">X-Sitey-Service", Decimal(id)])
  }

  /**
   A static service that is not running, and has no earlier success to show while it is
   queued or building; a server without a container, or with one that is not running.
   */
  predicate NotReady(s: Service) {
    if s.isStatic then s.status != "running" && !(s.hasSuccessfulDeployment && s.status in ["queued", "building"])
    else s.containerName in [None, Some("")] || !s.containerRunning
  }

  function Placeholder(): seq<Shape> {
    Plains(["header", "X-Sitey-Pending", "1"]) + Plains(["root", "*", "/srv/web"])
    + Plains(["rewrite", "*", "/pending.html"]) + Plains(["file_server"])
  }

  /** The directory a static service is served from, in quotes. */
  function Root(s: Service): seq<Shape> {
    var dir := "/srv/services/" + Decimal(s.id) + "/repo" + (if s.outputDir == "" then "" else "/" + s.outputDir);
    [Shape("root", false), Shape("*", false), Shape(dir, true)]
  }

  function SinglePage(): seq<Shape> {
    Plains(["try_files", "{path}", "/index.html"]) + Plains(["file_server"])
  }

  /** Page by page, with a 404 page of its own. */
  function MultiPage(): seq<Shape> {
    Plains(["@sitey_page", "file", "{path}", "{path}/index.html", "{path}.html"])
    + Braced(["handle", "@sitey_page"], Plains(["rewrite", "*", "{file_match.relative}"]) + Plains(["file_server"]))
    + Braced(["handle"], Plains(["@sitey_404", "file", "/404.html"])
      + Braced(["handle", "@sitey_404"], Plains(["rewrite", "*", "/404.html"])
        + Braced(["file_server"], Plains(["status", "404"])))
      + Braced(["handle"], Plains(["respond", "404"])))
  }

  /** A fragment as it is rendered, or what stands for one that is refused. */
  function Fragment(f: string, indent: nat, pad: nat): seq<Shape> {
    if C.CheckOf(f).Accepted? then FragmentShapes(f, indent, pad)
    else [Shape("respond", false), Shape("Invalid custom Caddy config for this service", true), Shape("500", false)]
  }

  function Content(s: Service, indent: nat, pad: nat): seq<Shape> {
    if NotReady(s) then Placeholder()
    else if s.isStatic then
      Root(s) + (if s.staticRoutingMode == Some("multi-page") then MultiPage()
                 else if s.staticRoutingMode == Some("caddy") then Fragment(s.staticCaddyConfig.GetOr(""), indent, pad)
                 else SinglePage())
    else
      Plains(["reverse_proxy", s.containerName.GetOr("") + ":" + Decimal(s.containerPort)])
  }

  /** A route under a path redirects to it and is served below it; any other is served as it is. */
  function RouteShapes(r: Route): seq<Shape> {
    var tag := Tagged(r.service.id);
    if r.pathPrefix == "" then Braced(["handle"], tag + Content(r.service, 4, 4))
    else
      Braced(["handle", r.pathPrefix], tag + Plains(["redir", "*", r.pathPrefix + "/", "308"]))
      + Braced(["handle_path", r.pathPrefix + "/*"], tag + Content(r.service, 8, 0))
  }

  function RoutesShapes(routes: seq<Route>): seq<Shape> {
    if routes == [] then [] else RouteShapes(routes[0]) + RoutesShapes(routes[1..])
  }

  /** The content is the placeholder exactly for a service that is not ready; a server's is its one upstream. */
  lemma ContentMeans(s: Service, indent: nat, pad: nat)
    ensures Content(s, indent, pad) == Placeholder() <==> NotReady(s)
    ensures !NotReady(s) && !s.isStatic ==>
              |Content(s, indent, pad)| == 2 && Content(s, indent, pad)[0].text == "reverse_proxy"
    ensures !NotReady(s) && s.isStatic ==> Root(s) <= Content(s, indent, pad)
  {
    assert Placeholder()[0].text == "header";
    hide Placeholder, MultiPage, SinglePage, Fragment;
  }

  // ---- The panel and the rest of a site --------------------------------------------

  /** The panel: its API under `/api/`, and its pages from another server or from its own directory. */
  function PanelShapes(panel: Panel): seq<Shape> {
    var tag := Tagged(panel.serviceId);
    Braced(["handle", "/api/*"], tag + Plains(["reverse_proxy", panel.api]))
    + Braced(["handle"], tag + if panel.web != "" then Plains(["reverse_proxy", panel.web])
                               else Plains(["root", "*", "/srv/web"]) + SinglePage())
  }

  /** What a request is answered with that is under no route: a 404 with the panel's page for it. */
  function FallbackShapes(): seq<Shape> {
    Braced(["handle"], Tagged(0) + Plains(["error", "404"]))
    + Braced(["handle_errors"], Tagged(0) + Plains(["root", "*", "/srv/web"]) + Plains(["rewrite", "*", "/404.html"])
                                + Plains(["templates"]) + Plains(["file_server"]))
  }

  /** Without routes a site is the panel; with routes but none at the root there is the fallback behind them. */
  function BodyShapes(routes: seq<Route>, panel: Panel): seq<Shape> {
    Plains(["import", "requests_log"])
    + if routes == [] then PanelShapes(panel)
      else RoutesShapes(routes)
           + if forall i :: 0 <= i < |routes| ==> routes[i].pathPrefix != "" then FallbackShapes() else []
  }

  // ---- The documents say this ------------------------------------------------------

  lemma LineShapesOf(indent: nat, words: seq<string>, pad: nat)
    ensures Shapes([Line(indent, words)], pad) == Plains(words)
  {
    hide PieceShapes, Words;
    OneShapes(Line(indent, words), pad);
  }

  lemma TagShapesOf(indent: nat, id: nat, pad: nat)
    ensures Shapes([Tag(indent, Decimal(id))], pad) == Tagged(id)
  {
    var words, names := ["log_append", "service_id", Decimal(id)], ["header", ">X-Sitey-Service", Decimal(id)];
    assert TagPieces(Decimal(id)).0 == Words(words) && TagPieces(Decimal(id)).1 == Words(names);
    hide PieceShapes, Words, Decimal, TagPieces;
    OneShapes(Tag(indent, Decimal(id)), pad);
  }

  lemma BlockShapesOf(indent: nat, words: seq<string>, body: seq<Item>, pad: nat)
    ensures Shapes([Block(indent, words, body)], pad) == Braced(words, Shapes(body, pad))
  {
    hide PieceShapes, Words, Shapes;
    OneShapes(Block(indent, words, body), pad);
    BlockShapes(Words(words), indent, 0, body, pad);
  }

  /** A line in front of others. */
  lemma LineThen(indent: nat, words: seq<string>, rest: seq<Item>, pad: nat)
    ensures Shapes([Line(indent, words)] + rest, pad) == Plains(words) + Shapes(rest, pad)
  {
    hide Shapes, Plains, Line;
    LineShapesOf(indent, words, pad);
    DocumentThen([Line(indent, words)], rest, pad);
  }

  lemma TagThen(indent: nat, id: nat, rest: seq<Item>, pad: nat)
    ensures Shapes([Tag(indent, Decimal(id))] + rest, pad) == Tagged(id) + Shapes(rest, pad)
  {
    hide Shapes, Tagged, Decimal;
    TagShapesOf(indent, id, pad);
    DocumentThen([Tag(indent, Decimal(id))], rest, pad);
  }

  lemma BlockThen(indent: nat, words: seq<string>, body: seq<Item>, rest: seq<Item>, pad: nat)
    ensures Shapes([Block(indent, words, body)] + rest, pad) == Braced(words, Shapes(body, pad)) + Shapes(rest, pad)
  {
    hide Shapes, Braced, Block;
    BlockShapesOf(indent, words, body, pad);
    DocumentThen([Block(indent, words, body)], rest, pad);
  }

  /** The placeholder, line by line. */
  lemma PendingServing(s: Service, n: nat, pad: nat)
    requires NotReady(s)
    ensures Shapes(Serving(s, n), pad) == Placeholder()
  {
    var header, root := Line(n, ["header", "X-Sitey-Pending", "1"]), Line(n, ["root", "*", "/srv/web"]);
    var rewrite, serve := Line(n, ["rewrite", "*", "/pending.html"]), Line(n, ["file_server"]);
    assert Serving(s, n) == [header] + ([root] + ([rewrite] + [serve]));
    hide Shapes, Plains, Line, Serving;
    LineThen(n, ["header", "X-Sitey-Pending", "1"], [root] + ([rewrite] + [serve]), pad);
    LineThen(n, ["root", "*", "/srv/web"], [rewrite] + [serve], pad);
    LineThen(n, ["rewrite", "*", "/pending.html"], [serve], pad);
    LineShapesOf(n, ["file_server"], pad);
    FourParts(Plains(["header", "X-Sitey-Pending", "1"]), Plains(["root", "*", "/srv/web"]),
              Plains(["rewrite", "*", "/pending.html"]), Plains(["file_server"]));
  }

  lemma FourParts(a: seq<Shape>, b: seq<Shape>, c: seq<Shape>, d: seq<Shape>)
    ensures a + (b + (c + d)) == a + b + c + d
  {
  }

  lemma ProxyServing(s: Service, n: nat, pad: nat)
    requires !NotReady(s) && !s.isStatic
    ensures Shapes(Serving(s, n), pad) == Content(s, n, pad)
  {
    hide Shapes, Plains, Line, Decimal;
    LineShapesOf(n, ["reverse_proxy", s.containerName.GetOr("") + ":" + Decimal(s.containerPort)], pad);
  }

  lemma RootShapesOf(s: Service, n: nat, pad: nat)
    ensures Shapes([Written(n, RootPieces(s.id, s.outputDir))], pad) == Root(s)
  {
    var dir := "/srv/services/" + Decimal(s.id) + "/repo" + (if s.outputDir == "" then "" else "/" + s.outputDir);
    assert OutputPath(s.id, s.outputDir) == dir;
    hide Decimal;
    OneShapes(Written(n, RootPieces(s.id, s.outputDir)), pad);
    assert PieceShapes(RootPieces(s.id, s.outputDir)) == Root(s);
  }

  lemma SinglePageShapes(n: nat, pad: nat)
    ensures Shapes([Line(n, ["try_files", "{path}", "/index.html"]), Line(n, ["file_server"])], pad) == SinglePage()
  {
    var first, second := Line(n, ["try_files", "{path}", "/index.html"]), Line(n, ["file_server"]);
    hide Shapes, Plains, Line;
    LineThen(n, ["try_files", "{path}", "/index.html"], [second], pad);
    LineShapesOf(n, ["file_server"], pad);
    assert [first] + [second] == [first, second];
  }

  lemma FragmentServing(s: Service, n: nat, pad: nat)
    requires s.staticRoutingMode == Some("caddy")
    ensures Shapes(StaticServing(s, n), pad) == Fragment(s.staticCaddyConfig.GetOr(""), n, pad)
  {
    var f := s.staticCaddyConfig.GetOr("");
    hide C.CheckOf, FragmentShapes, Shapes;
    if C.CheckOf(f).Accepted? {
      OneShapes(Custom(n, f), pad);
    } else {
      var pieces := [Plain("respond"), Quoted(INVALID_FRAGMENT), Plain("500")];
      OneShapes(Written(n, pieces), pad);
      assert PieceShapes(pieces) == Fragment(f, n, pad);
    }
  }

  lemma MultiPageServing(s: Service, n: nat, pad: nat)
    requires s.staticRoutingMode == Some("multi-page")
    ensures Shapes(StaticServing(s, n), pad) == MultiPage()
  {
    var page := Line(n, ["@sitey_page", "file", "{path}", "{path}/index.html", "{path}.html"]);
    var found := Block(n, ["handle", "@sitey_page"], [
      Line(n + 4, ["rewrite", "*", "{file_match.relative}"]), Line(n + 4, ["file_server"])]);
    var other := Block(n, ["handle"], NotFound(n));
    assert StaticServing(s, n) == [page] + ([found] + [other]);
    hide Shapes, Plains, Line, Block, NotFound, Braced, StaticServing;
    LineThen(n, ["@sitey_page", "file", "{path}", "{path}/index.html", "{path}.html"], [found] + [other], pad);
    PageShapes(n, [other], pad);
    BlockShapesOf(n, ["handle"], NotFound(n), pad);
    NotFoundShapes(n, pad);
    MultiPageParts();
  }

  /** What is served where no page is found. */
  function NotFound(n: nat): seq<Item> {
    [ Line(n + 4, ["@sitey_404", "file", "/404.html"]),
      Block(n + 4, ["handle", "@sitey_404"], [
        Line(n + 8, ["rewrite", "*", "/404.html"]),
        Block(n + 8, ["file_server"], [Line(n + 12, ["status", "404"])])]),
      Block(n + 4, ["handle"], [Line(n + 8, ["respond", "404"])])]
  }

  function NotFoundTokens(): seq<Shape> {
    Plains(["@sitey_404", "file", "/404.html"])
    + Braced(["handle", "@sitey_404"], Plains(["rewrite", "*", "/404.html"])
      + Braced(["file_server"], Plains(["status", "404"])))
    + Braced(["handle"], Plains(["respond", "404"]))
  }

  lemma MultiPageParts()
    ensures MultiPage() ==
      Plains(["@sitey_page", "file", "{path}", "{path}/index.html", "{path}.html"])
      + (Braced(["handle", "@sitey_page"], Plains(["rewrite", "*", "{file_match.relative}"]) + Plains(["file_server"]))
         + Braced(["handle"], NotFoundTokens()))
  {
    hide Plains, Braced;
  }

  lemma PageShapes(n: nat, rest: seq<Item>, pad: nat)
    ensures var found := Block(n, ["handle", "@sitey_page"], [
              Line(n + 4, ["rewrite", "*", "{file_match.relative}"]), Line(n + 4, ["file_server"])]);
      Shapes([found] + rest, pad) ==
      Braced(["handle", "@sitey_page"], Plains(["rewrite", "*", "{file_match.relative}"]) + Plains(["file_server"]))
      + Shapes(rest, pad)
  {
    var rewrite, serve := Line(n + 4, ["rewrite", "*", "{file_match.relative}"]), Line(n + 4, ["file_server"]);
    hide Shapes, Plains, Line, Block, Braced;
    BlockThen(n, ["handle", "@sitey_page"], [rewrite, serve], rest, pad);
    LineThen(n + 4, ["rewrite", "*", "{file_match.relative}"], [serve], pad);
    LineShapesOf(n + 4, ["file_server"], pad);
    assert [rewrite] + [serve] == [rewrite, serve];
  }

  lemma NotFoundShapes(n: nat, pad: nat)
    ensures Shapes(NotFound(n), pad) == NotFoundTokens()
  {
    var status := Line(n + 12, ["status", "404"]);
    var rewrite, serve := Line(n + 8, ["rewrite", "*", "/404.html"]), Block(n + 8, ["file_server"], [status]);
    var first, page := Line(n + 4, ["@sitey_404", "file", "/404.html"]),
                       Block(n + 4, ["handle", "@sitey_404"], [rewrite, serve]);
    var respond := Line(n + 8, ["respond", "404"]);
    var plain := Block(n + 4, ["handle"], [respond]);
    assert NotFound(n) == [first] + ([page] + [plain]);
    hide Shapes, Plains, Line, Block, Braced, NotFound;
    LineThen(n + 4, ["@sitey_404", "file", "/404.html"], [page] + [plain], pad);
    BlockThen(n + 4, ["handle", "@sitey_404"], [rewrite, serve], [plain], pad);
    assert [rewrite] + [serve] == [rewrite, serve];
    LineThen(n + 8, ["rewrite", "*", "/404.html"], [serve], pad);
    BlockShapesOf(n + 8, ["file_server"], [status], pad);
    LineShapesOf(n + 12, ["status", "404"], pad);
    BlockShapesOf(n + 4, ["handle"], [respond], pad);
    LineShapesOf(n + 8, ["respond", "404"], pad);
    ThreeParts(Plains(["@sitey_404", "file", "/404.html"]),
      Braced(["handle", "@sitey_404"], Plains(["rewrite", "*", "/404.html"])
        + Braced(["file_server"], Plains(["status", "404"]))),
      Braced(["handle"], Plains(["respond", "404"])));
  }

  lemma ThreeParts(a: seq<Shape>, b: seq<Shape>, c: seq<Shape>)
    ensures a + (b + c) == a + b + c
  {
  }

  lemma StaticServed(s: Service, n: nat, pad: nat)
    requires !NotReady(s) && s.isStatic
    ensures Shapes(Serving(s, n), pad) == Content(s, n, pad)
  {
    assert StaticReady(s);
    var root := Written(n, RootPieces(s.id, s.outputDir));
    hide Shapes, Root, RootPieces, StaticServing, MultiPage, SinglePage, Fragment;
    assert Serving(s, n) == [root] + StaticServing(s, n);
    RootShapesOf(s, n, pad);
    DocumentThen([root], StaticServing(s, n), pad);
    if s.staticRoutingMode == Some("multi-page") {
      MultiPageServing(s, n, pad);
    } else if s.staticRoutingMode == Some("caddy") {
      FragmentServing(s, n, pad);
    } else {
      SinglePageServing(s, n, pad);
    }
  }

  lemma SinglePageServing(s: Service, n: nat, pad: nat)
    requires s.staticRoutingMode !in [Some("multi-page"), Some("caddy")]
    ensures Shapes(StaticServing(s, n), pad) == SinglePage()
  {
    SinglePageShapes(n, pad);
    hide Shapes, SinglePage, Line;
  }

  /** The lines that serve a service are read as its content. */
  lemma ServingShapes(s: Service, n: nat, pad: nat)
    ensures Shapes(Serving(s, n), pad) == Content(s, n, pad)
  {
    hide Shapes, Serving, Placeholder, Root;
    if NotReady(s) {
      PendingServing(s, n, pad);
    } else if s.isStatic {
      StaticServed(s, n, pad);
    } else {
      ProxyServing(s, n, pad);
    }
  }

  lemma TaggedServing(s: Service, n: nat, pad: nat)
    ensures Shapes([Tag(n, Decimal(s.id))] + Serving(s, n), pad) == Tagged(s.id) + Content(s, n, pad)
  {
    hide *;
    TagThen(n, s.id, Serving(s, n), pad);
    ServingShapes(s, n, pad);
  }

  lemma RedirectShapes(r: Route)
    ensures Shapes([Redirect(r)], 0) ==
            Braced(["handle", r.pathPrefix], Tagged(r.service.id) + Plains(["redir", "*", r.pathPrefix + "/", "308"]))
  {
    var id, redir := r.service.id, Line(8, ["redir", "*", r.pathPrefix + "/", "308"]);
    hide Shapes, Braced, Plains, Tagged, Decimal, Line, Block;
    BlockShapesOf(4, ["handle", r.pathPrefix], [Tag(8, Decimal(id)), redir], 0);
    assert [Tag(8, Decimal(id))] + [redir] == [Tag(8, Decimal(id)), redir];
    TagThen(8, id, [redir], 0);
    LineShapesOf(8, ["redir", "*", r.pathPrefix + "/", "308"], 0);
  }

  lemma RouteDocument(r: Route)
    ensures Shapes(RouteHandler(r), 0) == RouteShapes(r)
  {
    var s := r.service;
    hide Shapes, Content, Tagged, Serving, Decimal, Redirect, RouteHandler;
    if r.pathPrefix == "" {
      HandlerOf(r);
      var body := [Tag(4, Decimal(s.id))] + Serving(s, 4);
      OneShapes(Scope(4, Words(["handle"]), 4, body), 0);
      BlockShapes(Words(["handle"]), 4, 4, body, 0);
      TaggedServing(s, 4, 4);
    } else {
      PrefixHandlerOf(r);
      var body := [Tag(8, Decimal(s.id))] + Serving(s, 8);
      var block := Block(4, ["handle_path", r.pathPrefix + "/*"], body);
      RedirectShapes(r);
      BlockShapesOf(4, ["handle_path", r.pathPrefix + "/*"], body, 0);
      TaggedServing(s, 8, 0);
      hide Braced, Plains;
      DocumentThen([Redirect(r)], [block], 0);
      assert [Redirect(r)] + [block] == [Redirect(r), block];
    }
  }

  lemma {:induction false} RoutesDocument(routes: seq<Route>)
    ensures Shapes(RouteHandlers(routes), 0) == RoutesShapes(routes)
  {
    hide RouteHandler, RouteShapes, ItemShapes;
    if routes != [] {
      RouteDocument(routes[0]);
      RoutesDocument(routes[1..]);
      DocumentThen(RouteHandler(routes[0]), RouteHandlers(routes[1..]), 0);
    }
  }

  lemma PanelDocument(panel: Panel)
    ensures Shapes(AdminHandlers(panel), 0) == PanelShapes(panel)
  {
    var tag := Tag(8, Decimal(panel.serviceId));
    var api, pages := Line(8, ["reverse_proxy", panel.api]), PanelPages(panel);
    var first := Block(4, ["handle", "/api/*"], [tag, api]);
    assert AdminHandlers(panel) == [first] + [Block(4, ["handle"], [tag] + pages)];
    hide Shapes, Plains, Line, Block, Braced, Tagged, Decimal, PanelPages, AdminHandlers, SinglePage;
    BlockThen(4, ["handle", "/api/*"], [tag, api], [Block(4, ["handle"], [tag] + pages)], 0);
    assert [tag] + [api] == [tag, api];
    TagThen(8, panel.serviceId, [api], 0);
    LineShapesOf(8, ["reverse_proxy", panel.api], 0);
    BlockShapesOf(4, ["handle"], [tag] + pages, 0);
    TagThen(8, panel.serviceId, pages, 0);
    PagesShapes(panel);
  }

  function PanelPages(panel: Panel): seq<Item> {
    if panel.web != "" then [Line(8, ["reverse_proxy", panel.web])]
    else [Line(8, ["root", "*", "/srv/web"]), Line(8, ["try_files", "{path}", "/index.html"]), Line(8, ["file_server"])]
  }

  lemma PagesShapes(panel: Panel)
    ensures Shapes(PanelPages(panel), 0) ==
            if panel.web != "" then Plains(["reverse_proxy", panel.web])
            else Plains(["root", "*", "/srv/web"]) + SinglePage()
  {
    hide Shapes, Plains, Line, SinglePage;
    if panel.web != "" {
      LineShapesOf(8, ["reverse_proxy", panel.web], 0);
    } else {
      var rest := [Line(8, ["try_files", "{path}", "/index.html"]), Line(8, ["file_server"])];
      LineThen(8, ["root", "*", "/srv/web"], rest, 0);
      SinglePageShapes(8, 0);
      assert [Line(8, ["root", "*", "/srv/web"])] + rest == PanelPages(panel);
    }
  }

  lemma FallbackDocument()
    ensures Shapes(Fallback(), 0) == FallbackShapes()
  {
    var tag, error := Tag(8, Decimal(0)), Line(8, ["error", "404"]);
    var second := Block(4, ["handle_errors"], ErrorPage());
    assert Fallback() == [Block(4, ["handle"], [tag, error])] + [second];
    hide Shapes, Plains, Line, Block, Braced, Tagged, Decimal, ErrorPage, Fallback;
    BlockThen(4, ["handle"], [tag, error], [second], 0);
    assert [tag] + [error] == [tag, error];
    TagThen(8, 0, [error], 0);
    LineShapesOf(8, ["error", "404"], 0);
    BlockShapesOf(4, ["handle_errors"], ErrorPage(), 0);
    ErrorShapes();
  }

  function ErrorPage(): seq<Item> {
    [ Tag(8, Decimal(0)), Line(8, ["root", "*", "/srv/web"]), Line(8, ["rewrite", "*", "/404.html"]),
      Line(8, ["templates"]), Line(8, ["file_server"])]
  }

  lemma ErrorShapes()
    ensures Shapes(ErrorPage(), 0) ==
            Tagged(0) + Plains(["root", "*", "/srv/web"]) + Plains(["rewrite", "*", "/404.html"])
            + Plains(["templates"]) + Plains(["file_server"])
  {
    var root, rewrite := Line(8, ["root", "*", "/srv/web"]), Line(8, ["rewrite", "*", "/404.html"]);
    var templates, serve := Line(8, ["templates"]), Line(8, ["file_server"]);
    assert ErrorPage() == [Tag(8, Decimal(0))] + ([root] + ([rewrite] + ([templates] + [serve])));
    hide Shapes, Plains, Line, Tagged, Decimal, ErrorPage;
    TagThen(8, 0, [root] + ([rewrite] + ([templates] + [serve])), 0);
    LineThen(8, ["root", "*", "/srv/web"], [rewrite] + ([templates] + [serve]), 0);
    LineThen(8, ["rewrite", "*", "/404.html"], [templates] + [serve], 0);
    LineThen(8, ["templates"], [serve], 0);
    LineShapesOf(8, ["file_server"], 0);
    FourParts(Plains(["root", "*", "/srv/web"]), Plains(["rewrite", "*", "/404.html"]), Plains(["templates"]),
              Plains(["file_server"]));
    FourParts(Tagged(0), Plains(["root", "*", "/srv/web"]) + Plains(["rewrite", "*", "/404.html"]),
              Plains(["templates"]), Plains(["file_server"]));
    ThreeParts(Tagged(0), Plains(["root", "*", "/srv/web"]), Plains(["rewrite", "*", "/404.html"]));
    ThreeParts(Plains(["root", "*", "/srv/web"]) + Plains(["rewrite", "*", "/404.html"]), Plains(["templates"]),
               Plains(["file_server"]));
  }

  lemma BodyDocument(routes: seq<Route>, panel: Panel)
    ensures Shapes(SiteBody(routes, panel), 0) == BodyShapes(routes, panel)
  {
    var first := [Line(4, ["import", "requests_log"])];
    hide Shapes, Plains, Line, RouteHandlers, AdminHandlers, Fallback, RoutesShapes, PanelShapes, FallbackShapes;
    NoShapes();
    if routes == [] {
      LineThen(4, ["import", "requests_log"], AdminHandlers(panel), 0);
      PanelDocument(panel);
    } else {
      var back := if exists i :: 0 <= i < |routes| && routes[i].pathPrefix == "" then [] else Fallback();
      LineThen(4, ["import", "requests_log"], RouteHandlers(routes) + back, 0);
      DocumentThen(RouteHandlers(routes), back, 0);
      RoutesDocument(routes);
      FallbackDocument();
    }
  }

  lemma NoShapes()
    ensures Shapes([], 0) == []
  {
  }

  // ---- And so does the text --------------------------------------------------------

  /** The text of any good routes is read as their tokens, route by route. */
  lemma HandlerTokens(st: State, routes: seq<Route>)
    requires Ready(st) && GoodRoutes(routes)
    ensures HasRead(st, ReadLines(st, Lines(RouteHandlers(routes), 0)), RoutesShapes(routes))
  {
    hide *;
    RouteHandlersBalanced(st, routes);
    RoutesDocument(routes);
  }

  /** The text of a site's body is read as that of its routes, or of the panel, with the fallback where it is needed. */
  lemma BodyTokens(st: State, routes: seq<Route>, panel: Panel)
    requires Ready(st) && GoodRoutes(routes) && GoodPanel(panel)
    ensures HasRead(st, ReadLines(st, Lines(SiteBody(routes, panel), 0)), BodyShapes(routes, panel))
  {
    hide *;
    SiteBodyGood(routes, panel);
    GoodIsLegible(SiteBody(routes, panel));
    ReadItems(st, SiteBody(routes, panel), 0);
    BodyDocument(routes, panel);
  }

  // ---- The file --------------------------------------------------------------------

  /** The labels of a site: all but the last with a comma. */
  function Listed(labels: seq<string>): (r: seq<string>)
    ensures |r| == |labels|
  {
    seq(|labels|, i requires 0 <= i < |labels| => labels[i] + if i < |labels| - 1 then "," else "")
  }

  /** A site: its labels, and in braces the line of its email, if it has one, and its body. */
  function Enclosed(labels: seq<string>, email: string, body: seq<Shape>): seq<Shape> {
    Plains(Listed(labels)) + [Shape("{", false)]
    + ((if email != "" then TextShapes("tls " + email) else []) + body) + [Shape("}", false)]
  }

  function SitesShapes(sites: seq<Site>): seq<Shape> {
    if sites == [] then []
    else Enclosed(sites[0].labels, sites[0].email, Shapes(sites[0].body, 0)) + SitesShapes(sites[1..])
  }

  /** The management site: the routes that stand beside the panel, and the panel. */
  function ManagementShapes(mgmtRoutes: seq<Route>, panel: Panel): seq<Shape> {
    Plains(["import", "requests_log"]) + RoutesShapes(mgmtRoutes) + PanelShapes(panel)
  }

  lemma {:induction false} LabelsListed(labels: seq<string>)
    ensures LabelWords(labels) == Listed(labels)
  {
    if |labels| == 1 {
      assert labels[0] + "" == labels[0];
      assert labels == [labels[0]] == Listed(labels);
    } else if |labels| > 1 {
      LabelsListed(labels[1..]);
      var words, rest := Listed(labels), Listed(labels[1..]);
      assert forall i :: 1 <= i < |labels| ==> words[i] == rest[i - 1];
      assert words == [labels[0] + ","] + rest;
    }
  }

  lemma EnclosedSite(site: Site)
    ensures Shapes([SiteBlock(site)], 0) == Enclosed(site.labels, site.email, Shapes(site.body, 0))
  {
    LabelsListed(site.labels);
    hide LabelWords, Listed, PieceShapes, Words, TextShapes, Shapes;
    if site.email != "" {
      SiteShapes(site.labels, site.email, site.body);
    } else {
      assert [] + site.body == site.body && [] + Shapes(site.body, 0) == Shapes(site.body, 0);
      BlockShapesOf(0, LabelWords(site.labels), site.body, 0);
    }
  }

  lemma {:induction false} SitesDocument(sites: seq<Site>)
    ensures Shapes(SiteBlocks(sites), 0) == SitesShapes(sites)
  {
    hide SiteBlock, Enclosed;
    if sites == [] {
      NoShapes();
    } else {
      var block, rest := SiteBlock(sites[0]), SiteBlocks(sites[1..]);
      EnclosedSite(sites[0]);
      SitesDocument(sites[1..]);
      BlankBehind(block, rest);
    }
  }

  lemma BlankBehind(block: Item, rest: seq<Item>)
    ensures Shapes([block, Blank] + rest, 0) == Shapes([block], 0) + Shapes(rest, 0)
  {
    hide Shapes;
    assert [block, Blank] + rest == [block] + ([Blank] + rest);
    DocumentThen([block], [Blank] + rest, 0);
    DocumentThen([Blank], rest, 0);
    OneShapes(Blank, 0);
  }

  lemma {:induction false} SitesThen(a: seq<Site>, b: seq<Site>)
    ensures SitesShapes(a + b) == SitesShapes(a) + SitesShapes(b)
  {
    hide Enclosed, Shapes;
    if a == [] {
      assert a + b == b;
    } else {
      assert (a + b)[1..] == a[1..] + b;
      SitesThen(a[1..], b);
    }
  }

  lemma OneSite(site: Site)
    ensures SitesShapes([site]) == Enclosed(site.labels, site.email, Shapes(site.body, 0))
  {
    hide Enclosed, Shapes;
    assert [site][1..] == [];
  }

  lemma ManagementDocument(mgmtRoutes: seq<Route>, panel: Panel)
    ensures Shapes([Line(4, ["import", "requests_log"])] + RouteHandlers(mgmtRoutes) + AdminHandlers(panel), 0) ==
            ManagementShapes(mgmtRoutes, panel)
  {
    var first := [Line(4, ["import", "requests_log"])];
    hide Shapes, Plains, Line, RouteHandlers, AdminHandlers, RoutesShapes, PanelShapes;
    LineShapesOf(4, ["import", "requests_log"], 0);
    DocumentThen(first, RouteHandlers(mgmtRoutes), 0);
    DocumentThen(first + RouteHandlers(mgmtRoutes), AdminHandlers(panel), 0);
    RoutesDocument(mgmtRoutes);
    PanelDocument(panel);
  }

  /**
   The file: the management site on port 80 and, if it has a name, under that; then the
   sites of the hosts, each with its labels, its email and its body.
   */
  function FileShapes(mgmtRoutes: seq<Route>, panel: Panel, named: Option<Site>, sites: seq<Site>): seq<Shape> {
    var management := ManagementShapes(mgmtRoutes, panel);
    Enclosed([":80"], "", management)
    + (if named.Some? then Enclosed(named.value.labels, named.value.email, management) else [])
    + SitesShapes(sites)
  }

  /** The file tokenizes, and these are its tokens, all of them. */
  lemma FileReads(mgmtRoutes: seq<Route>, panel: Panel, named: Option<Site>, sites: seq<Site>)
    requires GoodRoutes(mgmtRoutes) && GoodPanel(panel)
    requires forall i :: 0 <= i < |sites| ==> GoodSite(sites[i])
    requires named.Some? ==> GoodSite(named.value)
    ensures var lexed := LexOf(Join(Lines(SiteBlocks(AllSites(mgmtRoutes, panel, named, sites)), 0)));
      lexed.Tokens? && ShapesOf(lexed.tokens) == FileShapes(mgmtRoutes, panel, named, sites)
  {
    var all := AllSites(mgmtRoutes, panel, named, sites);
    hide GoodSite, GoodRoutes, GoodPanel, LexOf, FileShapes, SitesShapes, SiteBlocks, Lines, Shapes, AllSites;
    AllSitesGood(mgmtRoutes, panel, named, sites);
    AllSitesNonempty(mgmtRoutes, panel, named, sites);
    SiteBlocksGood(all);
    LinesNonempty(SiteBlocks(all));
    GoodIsLegible(SiteBlocks(all));
    DocumentTokens(SiteBlocks(all));
    SitesDocument(all);
    AllSitesTokens(mgmtRoutes, panel, named, sites);
  }

  lemma AllSitesTokens(mgmtRoutes: seq<Route>, panel: Panel, named: Option<Site>, sites: seq<Site>)
    ensures SitesShapes(AllSites(mgmtRoutes, panel, named, sites)) == FileShapes(mgmtRoutes, panel, named, sites)
  {
    var admin := [Line(4, ["import", "requests_log"])] + RouteHandlers(mgmtRoutes) + AdminHandlers(panel);
    ManagementDocument(mgmtRoutes, panel);
    var first, own := [Site([":80"], "", admin)], if named.Some? then [named.value.(body := admin)] else [];
    assert AllSites(mgmtRoutes, panel, named, sites) == first + own + sites;
    hide Enclosed, ManagementShapes, Shapes, AllSites, Line, RouteHandlers, AdminHandlers;
    SitesThen(first + own, sites);
    SitesThen(first, own);
    OneSite(first[0]);
    if named.Some? { OneSite(own[0]); }
  }

  /** Good documents with the same lines have the same tokens. */
  lemma SameTokens(a: seq<Item>, b: seq<Item>)
    requires GoodItems(a) && GoodItems(b) && Lines(a, 0) == Lines(b, 0)
    ensures Shapes(a, 0) == Shapes(b, 0)
  {
    hide Lines, Shapes, ReadLines, GoodItems;
    GoodIsLegible(a);
    GoodIsLegible(b);
    ReadItems(START, a, 0);
    ReadItems(START, b, 0);
  }
}
