/**
 The site blocks of all hosts, from their entries to the tokens of the file (the end of
 `buildCaddyConfig`, caddy.ts): rendering (`CaddyFile`) and merging (`BlockMerge`) together.
 */
module Generated {
  import opened Wrappers
  import opened Text
  import opened CaddyLexer
  import opened CaddyRender
  import opened CaddySite
  import opened CaddyFile
  import opened CaddyRoute
  import B = BlockMerge

  /** A host as its blocks are written: its routes and what its Domain row says. */
  datatype Entry = Entry(name: string, routes: seq<Route>, email: string, fallback: bool, httpOnly: bool, probe: bool)

  /** The lines between the braces of a host's blocks, as a document. */
  function BodyItems(e: Entry, panel: Panel): seq<Item> {
    if e.probe then [Line(4, ["respond", "204"])] else SiteBody(e.routes, panel)
  }

  function HostOf(e: Entry, panel: Panel): B.Host {
    B.Host(e.name, Lines(SiteBody(e.routes, panel), 0), e.email, e.fallback, e.httpOnly, e.probe)
  }

  function Hosts(entries: seq<Entry>, panel: Panel): (r: seq<B.Host>)
    ensures |r| == |entries| && forall i :: 0 <= i < |r| ==> r[i] == HostOf(entries[i], panel)
  {
    seq(|entries|, i requires 0 <= i < |entries| => HostOf(entries[i], panel))
  }

  /** The blocks that are written, in order. */
  function Blocks(entries: seq<Entry>, panel: Panel): seq<B.Block> {
    B.Merge(B.AllBlocks(Hosts(entries, panel)))
  }

  /** A document with these lines: that of the first host that has them. */
  function DocumentFor(entries: seq<Entry>, panel: Panel, body: seq<string>): seq<Item> {
    if entries == [] then []
    else if Lines(BodyItems(entries[0], panel), 0) == body then BodyItems(entries[0], panel)
    else DocumentFor(entries[1..], panel, body)
  }

  /** `appendRenderedSiteBlock` */
  function SiteOf(b: B.Block, entries: seq<Entry>, panel: Panel): Site {
    Site(b.labels, b.tlsEmail.GetOr(""), DocumentFor(entries, panel, b.body))
  }

  function Sites(blocks: seq<B.Block>, entries: seq<Entry>, panel: Panel): (r: seq<Site>)
    ensures |r| == |blocks| && forall i :: 0 <= i < |r| ==> r[i] == SiteOf(blocks[i], entries, panel)
  {
    seq(|blocks|, i requires 0 <= i < |blocks| => SiteOf(blocks[i], entries, panel))
  }

  /** Hostnames are words, and the email, which the server does not check, stays in its block. */
  predicate GoodEntry(e: Entry) {
    GoodWord(e.name) && GoodRoutes(e.routes) && (Trim(e.email) != "" ==> GoodEmail(Trim(e.email)))
  }

  // ---- Every block is one that can be written ------------------------------------------

  ghost predicate HasBody(entries: seq<Entry>, panel: Panel, body: seq<string>) {
    exists i :: 0 <= i < |entries| && Lines(BodyItems(entries[i], panel), 0) == body
  }

  ghost predicate Writable(b: B.Block, entries: seq<Entry>, panel: Panel) {
    && b.labels != [] && (forall i :: 0 <= i < |b.labels| ==> GoodWord(b.labels[i]))
    && (b.tlsEmail.GetOr("") != "" ==> GoodEmail(b.tlsEmail.GetOr("")))
    && HasBody(entries, panel, b.body)
  }

  ghost predicate AllWritable(blocks: seq<B.Block>, entries: seq<Entry>, panel: Panel) {
    forall i :: 0 <= i < |blocks| ==> Writable(blocks[i], entries, panel)
  }

  lemma HttpWord(name: string)
    requires GoodWord(name)
    ensures GoodWord(B.Http(name))
  {
  }

  lemma ProbeBody(e: Entry, panel: Panel)
    requires e.probe
    ensures Lines(BodyItems(e, panel), 0) == ["    respond 204"]
  {
    var item := Line(4, ["respond", "204"]);
    OneLines(item, 0);
    var pieces := Words(["respond", "204"]);
    assert pieces == [Plain("respond"), Plain("204")];
    assert pieces[1..] == [Plain("204")] && PiecesText([Plain("204")]) == "204";
    assert PiecesText(pieces) == "respond" + " " + "204";
    assert Spaces(4) == "    " && Spaces(0) == "";
    assert LineText(4, pieces) == "    respond 204" && "" + "    respond 204" == "    respond 204";
  }

  lemma EmailWord(email: string)
    requires Trim(email) != "" ==> GoodEmail(Trim(email))
    ensures B.TlsEmail(email).GetOr("") != "" ==> GoodEmail(B.TlsEmail(email).GetOr(""))
  {
    hide GoodWord, Trim;
  }

  lemma HostBlocksWritable(entries: seq<Entry>, k: nat, panel: Panel)
    requires k < |entries| && GoodEntry(entries[k])
    ensures AllWritable(B.HostBlocks(HostOf(entries[k], panel)), entries, panel)
  {
    hide GoodWord, Lines, SiteBody, GoodRoutes, B.TlsEmail, Trim, B.Http;
    var e := entries[k];
    HttpWord(e.name);
    EmailWord(e.email);
    if e.probe { ProbeBody(e, panel); }
    assert HasBody(entries, panel, Lines(BodyItems(e, panel), 0));
  }

  lemma {:induction false} AllBlocksWritable(entries: seq<Entry>, n: nat, panel: Panel)
    requires n <= |entries| && forall k :: 0 <= k < |entries| ==> GoodEntry(entries[k])
    ensures AllWritable(B.AllBlocks(Hosts(entries, panel)[..n]), entries, panel)
    decreases n
  {
    hide Writable, B.HostBlocks, GoodEntry, HostOf;
    if n > 0 {
      AllBlocksWritable(entries, n - 1, panel);
      HostBlocksWritable(entries, n - 1, panel);
      assert Hosts(entries, panel)[..n][..n - 1] == Hosts(entries, panel)[..n - 1];
    }
  }

  lemma MoreLabels(a: B.Block, b: B.Block, entries: seq<Entry>, panel: Panel)
    requires Writable(a, entries, panel) && Writable(b, entries, panel)
    ensures Writable(a.(labels := a.labels + b.labels), entries, panel)
  {
    hide GoodWord, HasBody;
  }

  lemma {:induction false} MergedWritable(blocks: seq<B.Block>, entries: seq<Entry>, panel: Panel)
    requires AllWritable(blocks, entries, panel)
    ensures AllWritable(B.Merge(blocks), entries, panel)
    decreases |blocks|
  {
    hide Writable, B.Sig;
    if blocks != [] {
      var init, b := blocks[..|blocks| - 1], blocks[|blocks| - 1];
      MergedWritable(init, entries, panel);
      var merged := B.Merge(init);
      var k := B.Place(merged, B.Sig(b));
      hide B.Place;
      if k < |merged| { MoreLabels(merged[k], b, entries, panel); }
    }
  }

  // ---- And has a document ----------------------------------------------------------------

  lemma {:induction false} DocumentLines(entries: seq<Entry>, panel: Panel, body: seq<string>)
    requires HasBody(entries, panel, body) && GoodPanel(panel)
    requires forall k :: 0 <= k < |entries| ==> GoodEntry(entries[k])
    ensures Lines(DocumentFor(entries, panel, body), 0) == body && GoodItems(DocumentFor(entries, panel, body))
    decreases |entries|
  {
    hide Lines, BodyItems, GoodItems, GoodEntry, GoodPanel;
    if Lines(BodyItems(entries[0], panel), 0) == body {
      BodyGood(entries[0], panel);
    } else {
      var i :| 0 <= i < |entries| && Lines(BodyItems(entries[i], panel), 0) == body;
      assert entries[1..][i - 1] == entries[i];
      DocumentLines(entries[1..], panel, body);
    }
  }

  lemma BodyGood(e: Entry, panel: Panel)
    requires GoodEntry(e) && GoodPanel(panel)
    ensures GoodItems(BodyItems(e, panel))
  {
    hide GoodWord, GoodItem, SiteBody, Trim, GoodRoutes, GoodPanel, Line;
    if e.probe {
      ErrorWords();
      ProbeWord();
      LineGood(4, ["respond", "204"]);
    } else {
      SiteBodyGood(e.routes, panel);
    }
  }

  lemma ProbeWord()
    ensures GoodWord("204")
  {
  }

  lemma SiteGood(b: B.Block, entries: seq<Entry>, panel: Panel)
    requires Writable(b, entries, panel) && GoodPanel(panel)
    requires forall k :: 0 <= k < |entries| ==> GoodEntry(entries[k])
    ensures var site := SiteOf(b, entries, panel);
      GoodSite(site) && site.labels == b.labels && Lines(site.body, 0) == b.body && site.email == b.tlsEmail.GetOr("")
  {
    hide GoodWord, GoodItems, GoodEntry, GoodPanel, Lines, HasBody;
    DocumentLines(entries, panel, b.body);
  }

  // ---- The whole file ----------------------------------------------------------------------

  /**
   From the entries of all hosts to the tokens of the file: the top level is the management
   sites and then exactly the merged blocks, each written with its own lines, labels and
   email; and looking a host up among them finds what that host is served with.
   */
  lemma FileServesHosts(mgmtRoutes: seq<Route>, panel: Panel, named: Option<Site>, entries: seq<Entry>)
    requires GoodRoutes(mgmtRoutes) && GoodPanel(panel) && (named.Some? ==> GoodSite(named.value))
    requires forall k :: 0 <= k < |entries| ==> GoodEntry(entries[k])
    requires B.HostNames(Hosts(entries, panel))
    ensures var blocks := Blocks(entries, panel);
      var all := AllSites(mgmtRoutes, panel, named, Sites(blocks, entries, panel));
      var lexed := LexOf(Join(Lines(SiteBlocks(all), 0)));
      && lexed.Tokens? && TopLevel(ShapesOf(lexed.tokens), 0) == SiteHeaders(all)
      && ShapesOf(lexed.tokens) == FileShapes(mgmtRoutes, panel, named, Sites(blocks, entries, panel))
      && (forall k :: 0 <= k < |blocks| ==> var site := Sites(blocks, entries, panel)[k];
            site.labels == blocks[k].labels && site.email == blocks[k].tlsEmail.GetOr("")
              && Lines(site.body, 0) == blocks[k].body)
    ensures forall i, name: string :: 0 <= i < |entries| && B.Serving(HostOf(entries[i], panel), name).Some? ==>
      B.Lookup(Blocks(entries, panel), name) == B.Serving(HostOf(entries[i], panel), name)
  {
    hide GoodSite, GoodEntry, GoodPanel, GoodRoutes, Writable, AllSites, SiteBlocks, Lines, LexOf, TopLevel;
    hide SiteHeaders, SiteOf, FileShapes;
    hide B.Merge, B.AllBlocks, B.HostNames, B.Serving, B.Lookup, HostOf;
    var hosts, blocks := Hosts(entries, panel), Blocks(entries, panel);
    AllBlocksWritable(entries, |entries|, panel);
    assert hosts[..|entries|] == hosts;
    MergedWritable(B.AllBlocks(hosts), entries, panel);
    forall k | 0 <= k < |blocks|
      ensures var site := Sites(blocks, entries, panel)[k];
        GoodSite(site) && site.labels == blocks[k].labels && Lines(site.body, 0) == blocks[k].body
        && site.email == blocks[k].tlsEmail.GetOr("")
    {
      SiteGood(blocks[k], entries, panel);
    }
    FileTopLevel(mgmtRoutes, panel, named, Sites(blocks, entries, panel));
    FileReads(mgmtRoutes, panel, named, Sites(blocks, entries, panel));
    forall i, name: string | 0 <= i < |entries| && B.Serving(HostOf(entries[i], panel), name).Some?
      ensures B.Lookup(blocks, name) == B.Serving(HostOf(entries[i], panel), name)
    {
      assert hosts[i] == HostOf(entries[i], panel);
      B.HostsServed(hosts, i, name);
    }
  }

  // ---- What is written for a host ------------------------------------------------------------

  /** The label is in the file, and wherever it is, it has this email and this body. */
  ghost predicate WrittenAs(sites: seq<Site>, name: string, email: string, body: seq<Shape>) {
    && (exists k :: 0 <= k < |sites| && name in sites[k].labels)
    && forall k :: 0 <= k < |sites| && name in sites[k].labels ==>
         sites[k].email == email && Shapes(sites[k].body, 0) == body
  }

  ghost predicate Unwritten(sites: seq<Site>, name: string) {
    forall k :: 0 <= k < |sites| ==> name !in sites[k].labels
  }

  lemma BodyItemsTokens(e: Entry, panel: Panel)
    ensures Shapes(BodyItems(e, panel), 0) ==
            if e.probe then Plains(["respond", "204"]) else BodyShapes(e.routes, panel)
  {
    hide Shapes, Plains, Line, SiteBody, BodyShapes;
    if e.probe { LineShapesOf(4, ["respond", "204"], 0); } else { BodyDocument(e.routes, panel); }
  }

  /** A label a host is served under is written with that host's email and body. */
  lemma LabelWritten(entries: seq<Entry>, i: nat, name: string, panel: Panel)
    requires (forall k :: 0 <= k < |entries| ==> GoodEntry(entries[k])) && GoodPanel(panel) && i < |entries|
    requires B.HostNames(Hosts(entries, panel)) && B.Serving(HostOf(entries[i], panel), name).Some?
    requires B.Serving(HostOf(entries[i], panel), name).value.body == Lines(BodyItems(entries[i], panel), 0)
    ensures WrittenAs(Sites(Blocks(entries, panel), entries, panel), name,
                      B.Serving(HostOf(entries[i], panel), name).value.tlsEmail,
                      Shapes(BodyItems(entries[i], panel), 0))
  {
    hide GoodEntry, GoodPanel, Writable, SiteOf, B.Merge, B.AllBlocks, B.HostNames, B.Serving, HostOf, BodyItems;
    hide Lines, Shapes, GoodItems, GoodSite;
    var hosts, blocks := Hosts(entries, panel), Blocks(entries, panel);
    var sites := Sites(blocks, entries, panel);
    assert hosts[i] == HostOf(entries[i], panel);
    B.WrittenOnce(hosts, i, name);
    AllBlocksWritable(entries, |entries|, panel);
    assert hosts[..|entries|] == hosts;
    MergedWritable(B.AllBlocks(hosts), entries, panel);
    BodyGood(entries[i], panel);
    forall k | 0 <= k < |blocks|
      ensures sites[k].labels == blocks[k].labels
      ensures name in blocks[k].labels ==>
                sites[k].email == B.Serving(hosts[i], name).value.tlsEmail
                && Shapes(sites[k].body, 0) == Shapes(BodyItems(entries[i], panel), 0)
    {
      SiteGood(blocks[k], entries, panel);
      if name in blocks[k].labels {
        SiteItems(sites[k]);
        SameTokens(sites[k].body, BodyItems(entries[i], panel));
      }
    }
    var k :| 0 <= k < |blocks| && name in blocks[k].labels;
    assert name in sites[k].labels;
  }

  lemma SiteItems(site: Site)
    requires GoodSite(site)
    ensures GoodItems(site.body)
  {
    hide GoodWord;
  }

  lemma LabelUnwritten(entries: seq<Entry>, i: nat, name: string, panel: Panel)
    requires B.HostNames(Hosts(entries, panel)) && i < |entries|
    requires name in [entries[i].name, "http://" + entries[i].name]
    requires B.Serving(HostOf(entries[i], panel), name).None?
    ensures Unwritten(Sites(Blocks(entries, panel), entries, panel), name)
  {
    hide B.Merge, B.AllBlocks, DocumentFor;
    var hosts := Hosts(entries, panel);
    forall k | 0 <= k < |hosts| ensures B.Serving(hosts[k], name).None? {
      if k != i { NameOfOther(hosts, i, k, name); }
    }
    hide B.Serving, B.HostNames, HostOf;
    B.NotWritten(hosts, name);
  }

  /** Neither label of one host is one of another's. */
  lemma NameOfOther(hosts: seq<B.Host>, i: nat, k: nat, name: string)
    requires B.HostNames(hosts) && i < |hosts| && k < |hosts| && i != k
    requires name == hosts[i].name || name == "http://" + hosts[i].name
    ensures B.Serving(hosts[k], name).None?
  {
    var a, b := hosts[i].name, hosts[k].name;
    assert a != b && !B.IsHttp(a) && !B.IsHttp(b);
    assert ("http://" + a)[7..] == a && ("http://" + b)[7..] == b;
    assert B.IsHttp("http://" + a) && B.IsHttp("http://" + b);
    hide B.TlsEmail, B.IsHttp;
  }

  /**
   What the file says of a host. One that only answers probes has a block with its email that
   answers 204, and no other. Any other has under its name, unless one of its routes is for
   plain HTTP, its email and its body; and it has its body under its plain-HTTP label exactly
   if one of its routes is for plain HTTP or it has no certificate yet.
   */
  lemma HostTokens(entries: seq<Entry>, i: nat, panel: Panel)
    requires (forall k :: 0 <= k < |entries| ==> GoodEntry(entries[k])) && GoodPanel(panel) && i < |entries|
    requires B.HostNames(Hosts(entries, panel))
    ensures var sites, e := Sites(Blocks(entries, panel), entries, panel), entries[i];
            var http, body := "http://" + e.name, BodyShapes(e.routes, panel);
      if e.probe then WrittenAs(sites, e.name, Trim(e.email), Plains(["respond", "204"])) && Unwritten(sites, http)
      else
        && (if e.httpOnly then Unwritten(sites, e.name) else WrittenAs(sites, e.name, Trim(e.email), body))
        && (if e.httpOnly || e.fallback then WrittenAs(sites, http, "", body) else Unwritten(sites, http))
  {
    var e := entries[i];
    var http := "http://" + e.name;
    BodyItemsTokens(e, panel);
    ServedAs(e, panel);
    NotOwnScheme(entries, i, panel);
    hide GoodEntry, GoodPanel, B.HostNames, Sites, Blocks, Shapes, Lines, Plains, BodyShapes, SiteBody, WrittenAs;
    hide Unwritten, Trim, BodyItems, B.Serving, HostOf;
    LabelTokens(entries, i, e.name, panel);
    LabelTokens(entries, i, http, panel);
  }

  /** Under which labels a host is served, and with which email. */
  lemma ServedAs(e: Entry, panel: Panel)
    requires "http://" + e.name != e.name
    ensures var own, plain := B.Serving(HostOf(e, panel), e.name), B.Serving(HostOf(e, panel), "http://" + e.name);
      && (own.Some? <==> e.probe || !e.httpOnly) && (plain.Some? <==> !e.probe && (e.httpOnly || e.fallback))
      && (own.Some? ==> own.value.tlsEmail == Trim(e.email)) && (plain.Some? ==> plain.value.tlsEmail == "")
  {
    hide Trim, Lines, SiteBody;
  }

  /** Either label of a host, as the host is served under it. */
  lemma LabelTokens(entries: seq<Entry>, i: nat, name: string, panel: Panel)
    requires (forall k :: 0 <= k < |entries| ==> GoodEntry(entries[k])) && GoodPanel(panel) && i < |entries|
    requires B.HostNames(Hosts(entries, panel)) && name in [entries[i].name, "http://" + entries[i].name]
    ensures var sites := Sites(Blocks(entries, panel), entries, panel);
      var served := B.Serving(HostOf(entries[i], panel), name);
      if served.Some? then WrittenAs(sites, name, served.value.tlsEmail, Shapes(BodyItems(entries[i], panel), 0))
      else Unwritten(sites, name)
  {
    if entries[i].probe { ProbeBody(entries[i], panel); }
    hide GoodEntry, GoodPanel, B.HostNames, Sites, Blocks, Shapes, Lines, SiteBody, WrittenAs, Unwritten, B.TlsEmail;
    if B.Serving(HostOf(entries[i], panel), name).Some? {
      LabelWritten(entries, i, name, panel);
    } else {
      LabelUnwritten(entries, i, name, panel);
    }
  }

  lemma NotOwnScheme(entries: seq<Entry>, i: nat, panel: Panel)
    requires B.HostNames(Hosts(entries, panel)) && i < |entries|
    ensures "http://" + entries[i].name != entries[i].name
  {
  }
}
