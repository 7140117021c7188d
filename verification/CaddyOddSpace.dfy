/**
 What becomes of an accepted fragment whose tokens re-indenting does not keep
 (`checkCaddyFragment` and `indentFragment` in staticRouting.ts).

 The check reads `ODD` as the word `abort` and a word of two characters. Rendering takes
 the second of them off as white space, and the brace that is left closes the block that
 the server opened. `HandlersUnbalanced` and `FileOpened` are the two consequences.
 */
module CaddyOddSpace {
  import opened Text
  import opened Wrappers
  import opened CaddyLexer
  import opened CaddyLayout
  import opened CaddySplice
  import C = CaddyChecker
  import opened CaddyRender
  import opened CaddySite
  import opened CaddyFile

  /** To the tokenizer a vertical tab is part of a word; to `trim` it is white space. */
  const VT := '\U{B}'

  const ODD: string := "abort }" + [VT]

  lemma OddSpace()
    ensures IsOddSpace(VT) && !IsSpace('}') && !IsSpace('a')
  {
    assert VT as int == 0xB;
  }

  /** The tokens the check sees. */
  lemma OddTokens()
    ensures LexOf(ODD) == Tokens([Token("abort", false, 1, 1), Token(['}', VT], false, 1, 1)], {})
  {
    hide IsSpace, IsLexSpace, Run;
    OddSpace();
    FirstWord();
    var mid := Running(Between, 1, [Token("abort", false, 1, 1)], {});
    var brace := Running(Word("}", 1), 1, mid.tokens, {});
    assert ODD == "abort" + [' '] + ['}', VT];
    RunBreak(START, "abort", ' ', ['}', VT]);
    BraceWord(mid);
    RunChar(mid, '}', [VT]);
    RunChar(brace, VT, "");
    RunNothing(brace.(mode := Word(['}', VT], 1)));
    assert ['}'] + [VT] == ['}', VT] && [VT] + "" == [VT] && "}" + [VT] == ['}', VT];
  }

  lemma FirstWord()
    ensures Step(Run(START, "abort"), ' ', "") == Running(Between, 1, [Token("abort", false, 1, 1)], {})
  {
    RunWord(START, "abort");
  }

  lemma BraceWord(mid: State)
    requires mid.Running? && mid.mode.Between?
    ensures Step(mid, '}', [VT]) == mid.(mode := Word("}", mid.line))
    ensures Step(mid.(mode := Word("}", mid.line)), VT, "") == mid.(mode := Word("}" + [VT], mid.line))
  {
    assert "" + ['}'] == "}";
  }

  lemma NoBrace(s: string)
    requires '{' !in s
    ensures !C.Occurs(s, "{$") && !C.Occurs(s, "{env.") && !C.Occurs(s, "{file.")
  {
    forall k | 0 <= k <= |s| ensures s[k..] == "" || s[k..][0] != '{' {
      if k < |s| { assert s[k..][0] == s[k]; }
    }
  }

  lemma OddText()
    ensures '{' !in ODD && !AllSpace(ODD) && '\n' !in ODD
  {
    OddSpace();
    hide IsSpace;
    assert ODD[0] == 'a' && ODD[0] in ODD;
  }

  /** Both tokens are on one line, which the grammar allows. */
  lemma OddAccepted()
    ensures C.CheckOf(ODD).Accepted?
  {
    hide IsSpace, LexOf, C.Grouped, C.Legal, C.ForestLines, C.CheckOf, C.Occurs, AllSpace;
    OddTokens();
    OddText();
    NoBrace(ODD);
    var line: C.Line := LexOf(ODD).tokens;
    OddLines(line);
    OddLegal(line);
    C.AcceptsExactlyTheGrammar(ODD);
  }

  lemma OddLines(line: C.Line)
    requires line == [Token("abort", false, 1, 1), Token(['}', VT], false, 1, 1)]
    ensures C.Grouped(line) == [line]
  {
    var init: seq<Token> := line[..1];
    assert init[..0] == [] && init == [line[0]];
    assert C.Grouped(init) == [[line[0]]];
    assert [line[0]] + [line[1]] == line;
  }

  lemma OddLegal(line: C.Line)
    requires line == [Token("abort", false, 1, 1), Token(['}', VT], false, 1, 1)]
    ensures C.Legal(C.Simple(line, C.End), []) && C.ForestLines(C.Simple(line, C.End)) == [line]
  {
  }

  /** Rendered, the fragment is the word `abort` and a brace. */
  lemma OddRendered(indent: nat)
    ensures LexOf(ODD).Tokens? && FragmentLines(indent, ODD) == [Spaces(indent) + "abort }"]
  {
    OddTokens();
    OddTrimmed();
    OneLine();
    hide LexOf, TrimmedText, IsSpace, Trim, TrimStart, Split;
    assert IndentLines(["abort }"][1..], 1, {}, Spaces(indent)) == [];
  }

  lemma OneLine()
    ensures Split("abort }") == ["abort }"]
  {
    SplitPart("abort }", "");
  }

  lemma OddTrimmed()
    ensures TrimmedText(ODD) == "abort }" && TrailingSpace(DropCr(ODD)) == [VT]
    ensures Trim("abort }") == TrimStart("abort }") == "abort }"
  {
    OddSpace();
    DropCrLines(ODD);
    TrimTight("abort }");
    hide IsSpace;
    OddText();
    assert ODD[..|ODD| - 1] == "abort }";
    assert "" + [VT] == [VT];
  }

  // ---- In its block ------------------------------------------------------------------

  /** A ready static service at the root of its host, with `ODD` as its fragment. */
  function OddRoute(id: nat, outputDir: string): Route {
    ValidationRoute(ODD, id, outputDir)
  }

  const ABORT := [Plain("abort"), CLOSE]

  function Inner(id: nat, outputDir: string): seq<Item> {
    [Tag(4, Decimal(id)), Written(4, RootPieces(id, outputDir))]
  }

  /** What the text of its handler says. */
  function OpenedHandler(id: nat, outputDir: string): Item {
    Scope(4, Words(["handle"]), 4, Inner(id, outputDir) + [Written(4, ABORT)])
  }

  lemma OddItemLines()
    ensures ItemLines(Custom(4, ODD), 4) == ItemLines(Written(4, ABORT), 4)
  {
    OddRendered(4);
    hide LexOf, FragmentLines;
    assert ABORT[1..] == [CLOSE];
    assert PiecesText(ABORT) == "abort }";
  }

  /** The fragment's text in its handler is that of a word and a closing brace. */
  lemma SameText(id: nat, outputDir: string)
    ensures C.CheckOf(ODD).Accepted?
    ensures Lines(RouteHandlers([OddRoute(id, outputDir)]), 0) == Lines([OpenedHandler(id, outputDir)], 0)
  {
    hide ItemLines, LexOf, C.CheckOf, Decimal, OutputPath, RouteHandler, Serving;
    var r, inner := OddRoute(id, outputDir), Inner(id, outputDir);
    OddAccepted();
    CustomServing(r.service, 4);
    OneHandler(r);
    HandlerOf(r);
    assert [inner[0]] + Serving(r.service, 4) == inner + [Custom(4, ODD)];
    LinesThen(inner, [Custom(4, ODD)], 4);
    LinesThen(inner, [Written(4, ABORT)], 4);
    OneLines(Custom(4, ODD), 4);
    OneLines(Written(4, ABORT), 4);
    OddItemLines();
    SameBody(4, inner + [Custom(4, ODD)], inner + [Written(4, ABORT)]);
    OneLines(Scope(4, Words(["handle"]), 4, inner + [Custom(4, ODD)]), 0);
    OneLines(OpenedHandler(id, outputDir), 0);
  }

  lemma SameBody(deeper: nat, a: seq<Item>, b: seq<Item>)
    requires Lines(a, deeper) == Lines(b, deeper)
    ensures ItemLines(Scope(4, Words(["handle"]), deeper, a), 0) == ItemLines(Scope(4, Words(["handle"]), deeper, b), 0)
  {
    hide Lines;
  }

  /** The tokens of the text, up to the brace that the fragment brought, which closes the block. */
  function OpenedShapes(id: nat, outputDir: string): seq<Shape> {
    PieceShapes(Words(["handle"]))
    + ([Shape("{", false)] + (Shapes(Inner(id, outputDir), 4) + [Shape("abort", false)]) + [Shape("}", false)])
  }

  lemma OpenedDocument(id: nat, outputDir: string)
    ensures Shapes([OpenedHandler(id, outputDir)], 0) == OpenedShapes(id, outputDir) + [Shape("}", false)]
  {
    hide PieceShapes, Words, Decimal, OutputPath;
    OneShapes(OpenedHandler(id, outputDir), 0);
    hide ItemShapes;
    OneShapes(Written(4, ABORT), 4);
    DocumentThen(Inner(id, outputDir), [Written(4, ABORT)], 4);
    OpenedItem(id, outputDir, Inner(id, outputDir) + [Written(4, ABORT)]);
    AbortShapes();
  }

  lemma OpenedItem(id: nat, outputDir: string, body: seq<Item>)
    ensures ItemShapes(Scope(4, Words(["handle"]), 4, body), 0) ==
            PieceShapes(Words(["handle"])) + [Shape("{", false)] + Shapes(body, 4) + [Shape("}", false)]
  {
  }

  lemma AbortShapes()
    ensures ItemShapes(Written(4, ABORT), 4) == [Shape("abort", false), Shape("}", false)]
  {
  }

  lemma OpenedBalanced(id: nat, outputDir: string)
    requires IsValidOutputDir(outputDir)
    ensures GoodItems(Inner(id, outputDir)) && Balanced(OpenedShapes(id, outputDir))
  {
    hide Balanced, PieceShapes, Words, Decimal, OutputPath, GoodItem, Shapes, Weight, IsValidOutputDir, GoodWord;
    InnerGood(id, outputDir);
    ItemsBalanced(Inner(id, outputDir), 4);
    AbortFlat();
    BlockWords();
    LineGood(4, ["handle"]);
    PiecesBalanced(Words(["handle"]));
    var inner := Shapes(Inner(id, outputDir), 4);
    BalancedThen(inner, [Shape("abort", false)]);
    BlockBalanced(Shape("{", false), inner + [Shape("abort", false)], Shape("}", false));
    BalancedThen(PieceShapes(Words(["handle"])),
                 [Shape("{", false)] + (inner + [Shape("abort", false)]) + [Shape("}", false)]);
  }

  lemma InnerGood(id: nat, outputDir: string)
    requires IsValidOutputDir(outputDir)
    ensures GoodItems(Inner(id, outputDir))
  {
    hide GoodItem, IsValidOutputDir, Decimal;
    TagGood(4, id);
    RootLineGood(ValidationRoute("", id, outputDir).service, 4);
  }

  lemma AbortFlat()
    ensures Balanced([Shape("abort", false)]) && Weight(Shape("{", false)) == 1 && Weight(Shape("}", false)) == -1
  {
    FlatBalanced([Shape("abort", false)]);
  }

  lemma OpenedLegible(id: nat, outputDir: string)
    requires IsValidOutputDir(outputDir)
    ensures LegibleItems([OpenedHandler(id, outputDir)])
  {
    hide GoodPiece, IsValidOutputDir, Inner, IsTame, GoodWord, Legible;
    InnerGood(id, outputDir);
    GoodIsLegible(Inner(id, outputDir));
    BlockWords();
    WordLegible("handle");
    AbortLegible();
    var body := Inner(id, outputDir) + [Written(4, ABORT)];
    assert forall i :: 0 <= i < |body| ==> LegibleItem(body[i]);
    assert LegibleItem(OpenedHandler(id, outputDir));
  }

  lemma WordLegible(word: string)
    requires GoodWord(word)
    ensures Legible(Words([word]))
  {
    GoodWordPiece(word);
  }

  lemma AbortLegible()
    ensures Legible(ABORT)
  {
    AbortTame();
    TameIsGood("abort");
  }

  lemma AbortTame()
    ensures IsTame("abort")
  {
  }

  /**
   `ODD` is accepted but does not stay in its block: the handler written for it is read as
   one closing brace more than it opens.
   */
  lemma HandlersUnbalanced(st: State, id: nat, outputDir: string)
    requires Ready(st) && IsValidOutputDir(outputDir)
    ensures ServesFragment(OddRoute(id, outputDir).service, ODD) && !StaysInBlock(ODD) && !KeepsTokens(ODD)
    ensures var shapes := OpenedShapes(id, outputDir) + [Shape("}", false)];
            && HasRead(st, ReadLines(st, Lines(RouteHandlers([OddRoute(id, outputDir)]), 0)), shapes)
            && Depth(shapes) == -1 && !Balanced(shapes)
  {
    hide Ready, HasRead, ReadLines, Lines, Shapes, RouteHandlers, OpenedShapes, IsValidOutputDir, OpenedHandler;
    hide C.CheckOf, StaysInBlock, KeepsTokens;
    SameText(id, outputDir);
    OpenedLegible(id, outputDir);
    ReadItems(st, [OpenedHandler(id, outputDir)], 0);
    OpenedDocument(id, outputDir);
    OpenedBalanced(id, outputDir);
    DepthThen(OpenedShapes(id, outputDir), [Shape("}", false)]);
    DepthOne(Shape("}", false));
    if StaysInBlock(ODD) { StayingBalanced(st, id, outputDir, OpenedShapes(id, outputDir) + [Shape("}", false)]); }
    if KeepsTokens(ODD) { KeptStays(ODD); }
  }

  /** If it did stay in its block, the handler would be balanced. */
  lemma StayingBalanced(st: State, id: nat, outputDir: string, shapes: seq<Shape>)
    requires Ready(st) && IsValidOutputDir(outputDir) && StaysInBlock(ODD)
    requires HasRead(st, ReadLines(st, Lines(RouteHandlers([OddRoute(id, outputDir)]), 0)), shapes)
    ensures Balanced(shapes)
  {
    hide ReadLines, Lines, RouteHandlers, Balanced, StaysInBlock, C.CheckOf, IsValidOutputDir;
    RouteHandlersBalanced(st, [OddRoute(id, outputDir)]);
  }

  // ---- In the file -------------------------------------------------------------------

  /** The management site with that route, as its text says. */
  function OpenedSite(id: nat, outputDir: string, panel: Panel): seq<Item> {
    [ Block(0, [":80"],
            [Line(4, ["import", "requests_log"])] + [OpenedHandler(id, outputDir)] + AdminHandlers(panel)),
      Blank]
  }

  lemma SameBlock(words: seq<string>, a: seq<Item>, b: seq<Item>)
    requires Lines(a, 0) == Lines(b, 0)
    ensures ItemLines(Block(0, words, a), 0) == ItemLines(Block(0, words, b), 0)
  {
    hide Lines;
  }

  lemma SameFile(id: nat, outputDir: string, panel: Panel)
    ensures Lines(SiteBlocks(AllSites([OddRoute(id, outputDir)], panel, None, [])), 0) ==
            Lines(OpenedSite(id, outputDir, panel), 0)
  {
    hide ItemLines, RouteHandlers, AdminHandlers, OpenedHandler, Line;
    SameText(id, outputDir);
    var r, first := OddRoute(id, outputDir), [Line(4, ["import", "requests_log"])];
    LinesThen(first + RouteHandlers([r]), AdminHandlers(panel), 0);
    LinesThen(first, RouteHandlers([r]), 0);
    LinesThen(first + [OpenedHandler(id, outputDir)], AdminHandlers(panel), 0);
    LinesThen(first, [OpenedHandler(id, outputDir)], 0);
    var a := first + RouteHandlers([r]) + AdminHandlers(panel);
    var b := first + [OpenedHandler(id, outputDir)] + AdminHandlers(panel);
    OneSite(AllSites([r], panel, None, []), a);
    SameBlock([":80"], a, b);
    TwoLines(Block(0, [":80"], a), Blank, 0);
    TwoLines(Block(0, [":80"], b), Blank, 0);
  }

  lemma OneSite(sites: seq<Site>, body: seq<Item>)
    requires sites == [Site([":80"], "", body)]
    ensures SiteBlocks(sites) == [Block(0, [":80"], body), Blank]
    ensures SiteHeaders(sites) == [Shape(":80", false), Shape("{", false)]
  {
    assert sites[1..] == [] && SiteBlocks([]) == [] && SiteHeaders([]) == [];
    assert [] + body == body;
    assert LabelWords([":80"]) == [":80"];
  }

  /** The tokens of that text from the panel's handlers on. */
  function After(panel: Panel): seq<Shape> {
    Shapes(AdminHandlers(panel), 0) + [Shape("}", false)]
  }

  lemma SiteDocument(id: nat, outputDir: string, panel: Panel)
    ensures Shapes(OpenedSite(id, outputDir, panel), 0) ==
            [Shape(":80", false)] + ([Shape("{", false)]
            + ((PieceShapes(Words(["import", "requests_log"])) + OpenedShapes(id, outputDir))
               + ([Shape("}", false)] + After(panel))))
  {
    var first, handler := [Line(4, ["import", "requests_log"])], [OpenedHandler(id, outputDir)];
    var body := first + handler + AdminHandlers(panel);
    ImportShapes();
    PortShapes();
    hide OpenedShapes, PieceShapes, OpenedHandler, AdminHandlers, Line, Words, Shapes, ItemShapes;
    TwoShapes(Block(0, [":80"], body), Blank, 0);
    BlankShapes();
    BlockShapes(Words([":80"]), 0, 0, body, 0);
    DocumentThen(first + handler, AdminHandlers(panel), 0);
    DocumentThen(first, handler, 0);
    OpenedDocument(id, outputDir);
    Regroup([Shape(":80", false)], [Shape("{", false)], PieceShapes(Words(["import", "requests_log"])),
            OpenedShapes(id, outputDir), [Shape("}", false)], Shapes(AdminHandlers(panel), 0));
  }

  lemma Regroup(a: seq<Shape>, b: seq<Shape>, c: seq<Shape>, d: seq<Shape>, e: seq<Shape>, f: seq<Shape>)
    ensures a + b + (c + (d + e) + f) + e + [] == a + (b + ((c + d) + (e + (f + e))))
  {
  }

  lemma BlankShapes()
    ensures ItemShapes(Blank, 0) == []
  {
  }

  lemma ImportShapes()
    ensures Shapes([Line(4, ["import", "requests_log"])], 0) == PieceShapes(Words(["import", "requests_log"]))
  {
    OneShapes(Line(4, ["import", "requests_log"]), 0);
  }

  lemma PortShapes()
    ensures PieceShapes(Words([":80"])) == [Shape(":80", false)]
  {
  }

  lemma SiteLegible(id: nat, outputDir: string, panel: Panel)
    requires IsValidOutputDir(outputDir) && GoodPanel(panel)
    ensures LegibleItems(OpenedSite(id, outputDir, panel))
  {
    SiteWords();
    WordLegible(":80");
    hide GoodPiece, GoodWord, IsValidOutputDir, OpenedHandler, AdminHandlers, Legible, Line, GoodPanel, LegibleItems;
    OpenedLegible(id, outputDir);
    AdminHandlersGood(panel);
    GoodIsLegible(AdminHandlers(panel));
    ImportGood();
    GoodIsLegible([Line(4, ["import", "requests_log"])]);
    LegibleThen([Line(4, ["import", "requests_log"])], [OpenedHandler(id, outputDir)]);
    LegibleThen([Line(4, ["import", "requests_log"])] + [OpenedHandler(id, outputDir)], AdminHandlers(panel));
    PortLegible();
    var body := [Line(4, ["import", "requests_log"])] + [OpenedHandler(id, outputDir)] + AdminHandlers(panel);
    BlockLegible([":80"], body);
    BlankLegible();
    LegibleThen([Block(0, [":80"], body)], [Blank]);
  }

  lemma LegibleThen(a: seq<Item>, b: seq<Item>)
    requires LegibleItems(a) && LegibleItems(b)
    ensures LegibleItems(a + b)
  {
    hide LegibleItem;
  }

  lemma PortLegible()
    ensures LegibleItem(Line(0, [":80"]))
  {
    SiteWords();
    WordLegible(":80");
    hide GoodWord, Legible;
  }

  lemma BlankLegible()
    ensures LegibleItems([Blank])
  {
  }

  lemma AfterStarts(panel: Panel)
    ensures After(panel) != [] && After(panel)[0] == Shape("handle", false)
  {
    FirstAdmin(panel);
    var first := AdminHandlers(panel)[0];
    hide AdminHandlers, Words;
    FirstShape(AdminHandlers(panel), 0);
    assert ItemShapes(first, 0) == PieceShapes(Words(["handle", "/api/*"])) + [Shape("{", false)]
           + Shapes(first.body, 0) + [Shape("}", false)];
  }

  lemma FirstAdmin(panel: Panel)
    ensures var items := AdminHandlers(panel);
            items != [] && items[0] == Block(4, ["handle", "/api/*"], items[0].body)
  {
  }

  lemma FirstShape(items: seq<Item>, pad: nat)
    requires items != [] && ItemShapes(items[0], pad) != []
    ensures Shapes(items, pad) != [] && Shapes(items, pad)[0] == ItemShapes(items[0], pad)[0]
  {
    hide ItemShapes;
  }

  /** Behind the brace that the fragment brought, the tokenizer is at the top level. */
  lemma TopLevelOpened(inside: seq<Shape>, after: seq<Shape>)
    requires Balanced(inside) && after != [] && after[0] == Shape("handle", false)
    ensures var all := [Shape(":80", false)] + ([Shape("{", false)] + (inside + ([Shape("}", false)] + after)));
            [Shape(":80", false), Shape("{", false), Shape("handle", false)] <= TopLevel(all, 0)
  {
    var close := Shape("}", false);
    BlockTopLevel(inside, after);
    var block := [Shape("{", false)] + (inside + ([close] + after));
    assert ([Shape(":80", false)] + block)[1..] == block;
    hide Balanced;
    assert TopLevel(after, 0) == [after[0]] + TopLevel(after[1..], 0);
  }

  /**
   With such a route the file still tokenizes, but its top level is not what was
   generated: behind the header of the first site stands the panel's own handler.
   */
  lemma FileOpened(id: nat, outputDir: string, panel: Panel)
    requires IsValidOutputDir(outputDir) && GoodPanel(panel)
    ensures var all := AllSites([OddRoute(id, outputDir)], panel, None, []);
            var lexed := LexOf(Join(Lines(SiteBlocks(all), 0)));
            && lexed.Tokens?
            && SiteHeaders(all) + [Shape("handle", false)] <= TopLevel(ShapesOf(lexed.tokens), 0)
            && TopLevel(ShapesOf(lexed.tokens), 0) != SiteHeaders(all)
  {
    hide Lines, Shapes, AllSites, LegibleItems, LexOf, TopLevel, SiteHeaders, OpenedSite, OpenedShapes, GoodPanel;
    hide IsValidOutputDir;
    hide Balanced, After, PieceShapes, RouteHandlers, AdminHandlers;
    var all := AllSites([OddRoute(id, outputDir)], panel, None, []);
    SameFile(id, outputDir, panel);
    SiteLegible(id, outputDir, panel);
    NonemptySite(id, outputDir, panel);
    DocumentTokens(OpenedSite(id, outputDir, panel));
    SiteDocument(id, outputDir, panel);
    OpenedBalanced(id, outputDir);
    ImportGood();
    PiecesBalanced(Words(["import", "requests_log"]));
    BalancedThen(PieceShapes(Words(["import", "requests_log"])), OpenedShapes(id, outputDir));
    AfterStarts(panel);
    TopLevelOpened(PieceShapes(Words(["import", "requests_log"])) + OpenedShapes(id, outputDir), After(panel));
    FirstHeader(id, outputDir, panel);
  }

  lemma NonemptySite(id: nat, outputDir: string, panel: Panel)
    ensures Lines(OpenedSite(id, outputDir, panel), 0) != []
  {
    LinesNonempty(OpenedSite(id, outputDir, panel));
  }

  lemma FirstHeader(id: nat, outputDir: string, panel: Panel)
    ensures SiteHeaders(AllSites([OddRoute(id, outputDir)], panel, None, [])) ==
            [Shape(":80", false), Shape("{", false)]
  {
    hide RouteHandlers, AdminHandlers, Line;
    var all := AllSites([OddRoute(id, outputDir)], panel, None, []);
    OneSite(all, all[0].body);
  }
}
