/**
 Block structure of the generated Caddyfile (`appendRouteHandler` to
 `appendRenderedSiteBlock` in caddy.ts, on the tokens of a document).

 With fragments that stay in their block, every block the generator opens is closed by
 the line the generator writes for it: `ItemsBalanced` and `TopLevelAsGenerated`. When a
 fragment stays in its block is `StaysExactly`.
 */
module CaddySite {
  import opened Text
  import opened CaddyLexer
  import opened CaddyLayout
  import opened CaddySplice
  import opened CaddyInsert
  import opened CaddyChecker
  import opened CaddyRender

  // ---- Depth -----------------------------------------------------------------------

  /** How far a token moves the block depth; a lone brace counts even when quoted. */
  function Weight(s: Shape): int {
    if s.text == "{" then 1 else if s.text == "}" then -1 else 0
  }

  function Depth(shapes: seq<Shape>): int {
    if shapes == [] then 0 else Depth(shapes[..|shapes| - 1]) + Weight(shapes[|shapes| - 1])
  }

  /** Ends at the depth it starts from and never goes below it. */
  predicate Balanced(shapes: seq<Shape>) {
    Depth(shapes) == 0 && forall k :: 0 <= k <= |shapes| ==> Depth(shapes[..k]) >= 0
  }

  lemma {:induction false} DepthThen(a: seq<Shape>, b: seq<Shape>)
    ensures Depth(a + b) == Depth(a) + Depth(b)
    decreases |b|
  {
    if b == [] {
      assert a + b == a;
    } else {
      assert (a + b)[..|a + b| - 1] == a + b[..|b| - 1];
      DepthThen(a, b[..|b| - 1]);
    }
  }

  lemma BalancedThen(a: seq<Shape>, b: seq<Shape>)
    requires Balanced(a) && Balanced(b)
    ensures Balanced(a + b)
  {
    DepthThen(a, b);
    forall k | 0 <= k <= |a + b| ensures Depth((a + b)[..k]) >= 0 {
      if k <= |a| {
        assert (a + b)[..k] == a[..k];
      } else {
        assert (a + b)[..k] == a + b[..k - |a|];
        DepthThen(a, b[..k - |a|]);
      }
    }
  }

  lemma {:induction false} FlatBalanced(shapes: seq<Shape>)
    requires forall i :: 0 <= i < |shapes| ==> Weight(shapes[i]) == 0
    ensures Balanced(shapes)
    decreases |shapes|
  {
    if shapes != [] {
      var init := shapes[..|shapes| - 1];
      FlatBalanced(init);
      forall k | 0 <= k <= |shapes| ensures Depth(shapes[..k]) >= 0 {
        if k < |shapes| { assert shapes[..k] == init[..k]; } else { assert shapes[..k] == shapes; }
      }
    }
  }

  lemma BlockBalanced(open: Shape, body: seq<Shape>, close: Shape)
    requires Balanced(body) && Weight(open) == 1 && Weight(close) == -1
    ensures Balanced([open] + body + [close])
  {
    var all := [open] + body + [close];
    DepthOne(open);
    DepthOne(close);
    DepthThen([open], body);
    DepthThen([open] + body, [close]);
    forall k | 0 <= k <= |all| ensures Depth(all[..k]) >= 0 {
      if 1 <= k <= |body| + 1 {
        assert all[..k] == [open] + body[..k - 1];
        DepthThen([open], body[..k - 1]);
      } else if k > 0 {
        assert all[..k] == all;
      }
    }
  }

  lemma DepthOne(s: Shape)
    ensures Depth([s]) == Weight(s)
  {
    assert [s][..0] == [];
  }

  // ---- A fragment is balanced because it is a legal forest ---------------------------

  lemma ShapesThen(a: seq<Token>, b: seq<Token>)
    ensures ShapesOf(a + b) == ShapesOf(a) + ShapesOf(b)
  {
  }

  lemma {:induction false} ConcatThen(a: seq<CaddyChecker.Line>, b: seq<CaddyChecker.Line>)
    ensures Concat(a + b) == Concat(a) + Concat(b)
    decreases |b|
  {
    if b == [] {
      assert a + b == a;
    } else {
      assert (a + b)[..|a + b| - 1] == a + b[..|b| - 1];
      ConcatThen(a, b[..|b| - 1]);
    }
  }

  function LineShapes(lines: seq<CaddyChecker.Line>): seq<Shape> {
    ShapesOf(Concat(lines))
  }

  lemma LineShapesThen(a: seq<CaddyChecker.Line>, b: seq<CaddyChecker.Line>)
    ensures LineShapes(a + b) == LineShapes(a) + LineShapes(b)
  {
    ConcatThen(a, b);
    ShapesThen(Concat(a), Concat(b));
  }

  lemma LineShapesOne(line: CaddyChecker.Line)
    ensures LineShapes([line]) == ShapesOf(line)
  {
    ConcatLast([], line);
    assert [] + [line] == [line];
  }

  lemma BracelessBalanced(tokens: seq<Token>)
    requires Braceless(tokens)
    ensures Balanced(ShapesOf(tokens))
  {
    FlatBalanced(ShapesOf(tokens));
  }

  lemma {:induction false} ForestBalanced(f: Forest, ancestors: seq<string>)
    requires Legal(f, ancestors)
    ensures Balanced(LineShapes(ForestLines(f)))
  {
    hide Balanced, LineShapes, LegalLine, OpensBlock, Braceless, IsClose;
    match f
    case End =>
      BracelessBalanced([]) by { NoBraces(); }
      LineShapesNone();
    case Simple(line, rest) =>
      BracelessBalanced(line);
      ForestBalanced(rest, ancestors);
      BalancedThen(ShapesOf(line), LineShapes(ForestLines(rest)));
      LineShapesThen([line], ForestLines(rest));
      LineShapesOne(line);
    case Nested(header, body, close, rest) =>
      ForestBalanced(body, ancestors + [header[0].text]);
      ForestBalanced(rest, ancestors);
      NestedBalanced(header, ForestLines(body), close);
      BalancedThen(LineShapes([header] + ForestLines(body) + [[close]]), LineShapes(ForestLines(rest)));
      LineShapesThen([header] + ForestLines(body) + [[close]], ForestLines(rest));
  }

  lemma NoBraces()
    ensures Braceless([])
  {
  }

  lemma LineShapesNone()
    ensures LineShapes([]) == ShapesOf([])
  {
  }

  lemma NestedBalanced(header: CaddyChecker.Line, body: seq<CaddyChecker.Line>, close: Token)
    requires OpensBlock(header) && IsClose(close) && Balanced(LineShapes(body))
    ensures Balanced(LineShapes([header] + body + [[close]]))
  {
    var words, open := header[..|header| - 1], header[|header| - 1];
    var o, c := Shape(open.text, open.quoted), Shape(close.text, close.quoted);
    BracelessBalanced(words);
    BlockBalanced(o, LineShapes(body), c);
    BalancedThen(ShapesOf(words), [o] + LineShapes(body) + [c]);
    NestedShapes(header, body, close);
  }

  lemma NestedShapes(header: CaddyChecker.Line, body: seq<CaddyChecker.Line>, close: Token)
    ensures var words, open := header[..|header| - 1], header[|header| - 1];
            LineShapes([header] + body + [[close]]) ==
            ShapesOf(words) + ([Shape(open.text, open.quoted)] + LineShapes(body) + [Shape(close.text, close.quoted)])
  {
    hide LineShapes;
    LineShapesThen([header] + body, [[close]]);
    LineShapesThen([header], body);
    LineShapesOne(header);
    LineShapesOne([close]);
    var words, open := header[..|header| - 1], header[|header| - 1];
    ShapesThen(words, [open]);
    assert header == words + [open];
  }

  /** Rewriting multi-line texts never makes or removes a lone brace. */
  lemma {:induction false} WeightKept(a: seq<Shape>, b: seq<Shape>)
    requires |a| == |b| && forall i :: 0 <= i < |a| ==> Weight(a[i]) == Weight(b[i])
    ensures Depth(a) == Depth(b) && (Balanced(a) ==> Balanced(b))
    decreases |a|
  {
    if a != [] {
      WeightKept(a[..|a| - 1], b[..|b| - 1]);
    }
    if Balanced(a) {
      forall k | 0 <= k <= |b| ensures Depth(b[..k]) >= 0 {
        if k < |b| { WeightKept(a[..k], b[..k]); } else { assert b[..k] == b && a[..k] == a; }
      }
    }
  }

  // ---- Rewritten texts keep their weight -------------------------------------------

  lemma {:induction false} DropCrLines(s: string)
    ensures '\n' in DropCr(s) <==> '\n' in s
    ensures '\n' !in s ==> DropCr(s) == s
    decreases |s|
  {
    if s == "" {
    } else if |s| >= 2 && s[0] == '\r' && s[1] == '\n' {
      assert DropCr(s)[0] == '\n';
    } else {
      DropCrLines(s[1..]);
      assert s == [s[0]] + s[1..];
    }
  }

  lemma {:induction false} PadLines(s: string, pad: string)
    ensures '\n' in s ==> '\n' in Pad(s, pad)
    ensures '\n' !in s || pad == "" ==> Pad(s, pad) == s
    decreases |s|
  {
    if s != "" {
      var init, last := s[..|s| - 1], s[|s| - 1];
      PadLines(init, pad);
      assert s == init + [last];
      assert Pad(s, pad) == Pad(init, pad) + [last] + if last == '\n' then pad else "";
    }
  }

  lemma TextWeight(text: string, pad: string, quoted: bool)
    ensures Weight(Shape(Pad(DropCr(text), pad), quoted)) == Weight(Shape(text, quoted))
  {
    DropCrLines(text);
    PadLines(DropCr(text), pad);
  }

  /**
   The tokens of an accepted fragment, moved: as many as it has, quoted where it quotes,
   braces where it has braces, and balanced. Without padding only CRLF differs.
   */
  lemma FragmentBalanced(f: string, pad: nat)
    requires CheckOf(f).Accepted?
    ensures LexOf(f).Tokens?
    ensures var own, used := ShapesOf(LexOf(f).tokens), OwnShapes(f, pad);
            && Balanced(used)
            && |used| == |own|
            && forall i :: 0 <= i < |own| ==>
                 && used[i].quoted == own[i].quoted
                 && Weight(used[i]) == Weight(own[i])
                 && (pad == 0 ==> used[i].text == DropCr(own[i].text))
  {
    hide LexOf, CheckLines, Grouped, Balanced, Weight, DropCr, Pad, CheckOf, Legal;
    AcceptedTokenizes(f);
    var tokens := LexOf(f).tokens;
    TreeExists(Grouped(tokens));
    var forest :| Legal(forest, []) && ForestLines(forest) == Grouped(tokens);
    ForestBalanced(forest, []);
    GroupedCutsAtBreaks(tokens);
    var own, used := ShapesOf(tokens), OwnShapes(f, pad);
    forall i | 0 <= i < |own|
      ensures Weight(used[i]) == Weight(own[i]) && (pad == 0 ==> used[i].text == DropCr(own[i].text))
    {
      TextWeight(tokens[i].text, Spaces(pad), tokens[i].quoted);
      PadLines(DropCr(tokens[i].text), "");
      assert pad == 0 ==> Spaces(pad) == "";
    }
    WeightKept(own, used);
  }

  /** What the lines of an accepted fragment that keeps its tokens are read as, wherever they are spliced in. */
  lemma RenderedFragment(st: State, f: string, indent: nat, pad: nat)
    requires Ready(st) && CheckOf(f).Accepted? && KeepsTokens(f)
    ensures var own, used := ShapesOf(LexOf(f).tokens), OwnShapes(f, pad);
            && HasRead(st, ReadLines(st, Prefixed(Spaces(pad), FragmentLines(indent, f))), used)
            && Balanced(used)
            && |used| == |own|
            && forall i :: 0 <= i < |own| ==>
                 && used[i].quoted == own[i].quoted
                 && Weight(used[i]) == Weight(own[i])
                 && (pad == 0 ==> used[i].text == DropCr(own[i].text))
  {
    hide HasRead, ReadLines, Prefixed, FragmentLines, FragmentShapes, OwnShapes, Balanced, Weight, CheckOf;
    hide DropCr, LexOf;
    FragmentBalanced(f, pad);
    KeptShapes(f, indent, pad);
    ReadFragment(st, pad, indent, f);
  }

  // ---- When a fragment stays in its block ------------------------------------------

  /** Trimmed as it will be rendered, a fragment tokenizes and its tokens are balanced. */
  predicate StaysInBlock(f: string) {
    Renders(f) && Balanced(ShapesOf(LexOf(Bare(f)).tokens))
  }

  /** The tokenizer can read on behind these lines, having read balanced tokens. */
  ghost predicate ReadsBalanced(st: State, lines: seq<string>)
    requires st.Running?
  {
    var e := Run(st, Join(lines));
    && e.Running? && !e.mode.Quote? && st.tokens <= EndToken(e).tokens
    && Balanced(ShapesOf(EndToken(e).tokens[|st.tokens|..]))
  }

  /** Matched runs read tokens of the same weights. */
  lemma MatchedBalance(e: State, n: nat, e': State, n': nat, same: bool)
    requires Match(e, n, e', n', same) && e.Running? && !e.mode.Quote?
    ensures e'.Running? && !e'.mode.Quote?
    ensures n <= |EndToken(e).tokens| && n' <= |EndToken(e').tokens|
    ensures Balanced(ShapesOf(EndToken(e).tokens[n..])) <==> Balanced(ShapesOf(EndToken(e').tokens[n'..]))
  {
    EndTokenMatch(e, n, e', n', same);
    var a, b := ShapesOf(EndToken(e).tokens[n..]), ShapesOf(EndToken(e').tokens[n'..]);
    forall i | 0 <= i < |a| ensures Weight(a[i]) == Weight(b[i]) {
      assert EndToken(e).tokens[n + i].text == a[i].text && EndToken(e').tokens[n' + i].text == b[i].text;
    }
    hide Balanced, Weight;
    WeightKept(a, b);
    WeightKept(b, a);
  }

  /**
   A fragment that tokenizes stays in its block, wherever it is spliced in and however it
   is indented and prefixed, if and only if it does as it stands, trimmed.
   */
  lemma StaysExactly(st: State, f: string, indent: string, pad: string)
    requires Ready(st) && LexOf(f).Tokens? && IsIndent(indent) && IsIndent(pad)
    ensures ReadsBalanced(st, Prefixed(pad, IndentFragment(f, indent))) <==> StaysInBlock(f)
  {
    hide Run, Join, Prefixed, IndentFragment, Balanced, Match;
    var text := Rendering(f, indent, pad);
    RenderingMatch(f, indent, pad);
    ShiftMatch(st, text);
    var bare, e0, e := Run(START, Bare(f)), Run(START, text), Run(st, text);
    Unquoted(bare, 0, e0, 0, false);
    Unquoted(e0, 0, e, |st.tokens|, true);
    if bare.Running? && !bare.mode.Quote? {
      MatchedBalance(bare, 0, e0, 0, false);
      MatchedBalance(e0, 0, e, |st.tokens|, true);
      TokensGrow(st, text);
      assert EndToken(bare).tokens[0..] == EndToken(bare).tokens == LexOf(Bare(f)).tokens;
    }
  }

  lemma Unquoted(e: State, n: nat, e': State, n': nat, same: bool)
    requires Match(e, n, e', n', same)
    ensures (e.Running? && !e.mode.Quote?) <==> (e'.Running? && !e'.mode.Quote?)
  {
  }

  /** Where a fragment is rendered it is read as balanced tokens, if it stays in its block. */
  lemma StaysBalanced(f: string, indent: nat, pad: nat)
    requires StaysInBlock(f)
    ensures Balanced(FragmentShapes(f, indent, pad))
  {
    hide Run, Join, Prefixed, IndentFragment, Balanced, Match;
    StaysExactly(START, f, Spaces(indent), Spaces(pad));
    var e := Run(START, Rendering(f, Spaces(indent), Spaces(pad)));
    assert EndToken(e).tokens[0..] == EndToken(e).tokens;
  }

  /** An accepted fragment that keeps its tokens stays in its block. */
  lemma KeptStays(f: string)
    requires CheckOf(f).Accepted? && KeepsTokens(f)
    ensures StaysInBlock(f)
  {
    hide LexOf, CheckOf, Balanced, OwnShapes, PlainEnd, PlainLeads, Join, IndentFragment, Prefixed;
    FragmentBalanced(f, 0);
    KeptShapes(f, 0, 0);
    NoPrefix(IndentFragment(f, ""));
    assert Spaces(0) == "";
    assert Rendering(f, "", "") == Bare(f);
  }

  // ---- When a text from outside stays in its block ---------------------------------

  predicate TextStays(text: string) {
    LexOf(text).Tokens? && Balanced(TextShapes(text))
  }

  /** A text written as it is stays in its block, wherever it stands, if and only if it does alone. */
  lemma TextStaysExactly(st: State, indent: nat, pad: nat, text: string)
    requires Ready(st)
    ensures ReadsBalanced(st, ItemLines(Verbatim(indent, text), pad)) <==> TextStays(text)
  {
    hide Run, Balanced, Match;
    SkipIndent(st, Spaces(pad), Spaces(indent) + text);
    SkipIndent(st, Spaces(indent), text);
    ShiftMatch(st, text);
    var e0, e := Run(START, text), Run(st, text);
    Unquoted(e0, 0, e, |st.tokens|, true);
    if e0.Running? && !e0.mode.Quote? {
      MatchedBalance(e0, 0, e, |st.tokens|, true);
      TokensGrow(st, text);
      assert EndToken(e0).tokens[0..] == EndToken(e0).tokens == LexOf(text).tokens;
    }
  }

  // ---- Good data ---------------------------------------------------------------------

  predicate GoodItem(item: Item)
    decreases item, 0
  {
    match item
    case Written(_, pieces) => GoodPieces(pieces)
    case Verbatim(_, text) => TextStays(text)
    case Tag(_, id) => GoodPiece(Plain(id))
    case Custom(_, fragment) => CheckOf(fragment).Accepted? && StaysInBlock(fragment)
    case Scope(_, header, _, body) => GoodPieces(header) && GoodItems(body)
    case Blank => true
  }

  predicate GoodItems(items: seq<Item>)
    decreases items
  {
    forall i :: 0 <= i < |items| ==> GoodItem(items[i])
  }

  lemma {:induction false} GoodIsLegible(items: seq<Item>)
    requires GoodItems(items)
    ensures LegibleItems(items)
    decreases items
  {
    hide GoodPiece, CheckOf, Renders;
    forall i | 0 <= i < |items| ensures LegibleItem(items[i]) {
      if items[i].Scope? { GoodIsLegible(items[i].body); }
    }
  }

  // ---- Documents are balanced ------------------------------------------------------

  lemma PiecesBalanced(pieces: seq<Piece>)
    requires GoodPieces(pieces)
    ensures Balanced(PieceShapes(pieces))
  {
    PiecesFlat(pieces);
    FlatBalanced(PieceShapes(pieces));
  }

  lemma PiecesFlat(pieces: seq<Piece>)
    requires GoodPieces(pieces)
    ensures forall i :: 0 <= i < |pieces| ==> Weight(PieceShapes(pieces)[i]) == 0
  {
    hide IsWord;
    forall i | 0 <= i < |pieces| ensures Weight(PieceShapes(pieces)[i]) == 0 {
      assert GoodPiece(pieces[i]);
    }
  }

  lemma {:induction false} ItemsBalanced(items: seq<Item>, pad: nat)
    requires GoodItems(items)
    ensures Balanced(Shapes(items, pad))
    decreases items
  {
    hide Balanced;
    if items == [] {
      NothingBalanced();
    } else {
      ItemBalanced(items[0], pad);
      ItemsBalanced(items[1..], pad);
      BalancedThen(ItemShapes(items[0], pad), Shapes(items[1..], pad));
    }
  }

  lemma NothingBalanced()
    ensures Balanced([])
  {
  }

  lemma {:induction false} ItemBalanced(item: Item, pad: nat)
    requires GoodItem(item)
    ensures Balanced(ItemShapes(item, pad))
    decreases item, 0
  {
    hide Balanced, GoodPiece, FragmentShapes, PieceShapes, TagPieces, CheckOf;
    match item
    case Written(_, pieces) => PiecesBalanced(pieces);
    case Verbatim(_, text) =>
    case Tag(_, id) =>
      TagPiecesGood(id);
      PiecesBalanced(TagPieces(id).0);
      PiecesBalanced(TagPieces(id).1);
      BalancedThen(PieceShapes(TagPieces(id).0), PieceShapes(TagPieces(id).1));
    case Custom(indent, fragment) => StaysBalanced(fragment, indent, pad);
    case Scope(_, header, bodyPad, body) =>
      var open, close, inner := Shape("{", false), Shape("}", false), Shapes(body, pad + bodyPad);
      PiecesBalanced(header);
      ItemsBalanced(body, pad + bodyPad);
      BlockBalanced(open, inner, close);
      BalancedThen(PieceShapes(header), [open] + inner + [close]);
      assert ItemShapes(item, pad) == PieceShapes(header) + ([open] + inner + [close]);
    case Blank => NothingBalanced();
  }

  // ---- Top level -------------------------------------------------------------------

  /** The tokens outside every block, with the braces that open a block there. */
  function TopLevel(shapes: seq<Shape>, depth: int): seq<Shape>
    decreases |shapes|
  {
    if shapes == [] then []
    else
      (if depth == 0 && Weight(shapes[0]) >= 0 then [shapes[0]] else [])
      + TopLevel(shapes[1..], depth + Weight(shapes[0]))
  }

  /** Nothing inside an open block is at the top level. */
  lemma {:induction false} TopLevelSkips(inside: seq<Shape>, rest: seq<Shape>, depth: int)
    requires forall k :: 0 <= k <= |inside| ==> depth + Depth(inside[..k]) >= 1
    ensures TopLevel(inside + rest, depth) == TopLevel(rest, depth + Depth(inside))
    decreases |inside|
  {
    if inside == [] {
      assert inside + rest == rest;
    } else {
      var first, others := inside[0], inside[1..];
      assert inside == [first] + others && (inside + rest)[1..] == others + rest;
      assert inside[..0] == [];
      DepthOne(first);
      DepthThen([first], others);
      forall k | 0 <= k <= |others| ensures depth + Weight(first) + Depth(others[..k]) >= 1 {
        assert inside[..k + 1] == [first] + others[..k];
        DepthThen([first], others[..k]);
      }
      TopLevelSkips(others, rest, depth + Weight(first));
    }
  }

  lemma {:induction false} TopLevelFlat(words: seq<Shape>, rest: seq<Shape>)
    requires forall i :: 0 <= i < |words| ==> Weight(words[i]) == 0
    ensures TopLevel(words + rest, 0) == words + TopLevel(rest, 0)
    decreases |words|
  {
    if words == [] {
      assert words + rest == rest;
    } else {
      assert (words + rest)[1..] == words[1..] + rest;
      TopLevelFlat(words[1..], rest);
    }
  }

  /** The headers of a document that consists of blocks. */
  function Headers(items: seq<Item>): seq<Shape> {
    if items == [] then []
    else (if items[0].Scope? then PieceShapes(items[0].header) + [Shape("{", false)] else []) + Headers(items[1..])
  }

  lemma BlockTopLevel(inner: seq<Shape>, rest: seq<Shape>)
    requires Balanced(inner)
    ensures TopLevel([Shape("{", false)] + (inner + ([Shape("}", false)] + rest)), 0) ==
            [Shape("{", false)] + TopLevel(rest, 0)
  {
    var open, after := Shape("{", false), [Shape("}", false)] + rest;
    assert ([open] + (inner + after))[1..] == inner + after;
    TopLevelSkips(inner, after, 1);
    assert after[1..] == rest;
  }

  lemma ScopeTopLevel(item: Item, rest: seq<Shape>)
    requires item.Scope? && GoodItem(item)
    ensures TopLevel(ItemShapes(item, 0) + rest, 0) ==
            PieceShapes(item.header) + [Shape("{", false)] + TopLevel(rest, 0)
  {
    hide TopLevel, Balanced, Weight, GoodPiece, PieceShapes;
    var header, inner := PieceShapes(item.header), Shapes(item.body, item.bodyPad);
    var open, close := Shape("{", false), Shape("}", false);
    ItemsBalanced(item.body, item.bodyPad);
    PiecesFlat(item.header);
    var after := [open] + (inner + ([close] + rest));
    assert ItemShapes(item, 0) == header + [open] + inner + [close];
    hide ItemShapes, Shapes;
    assert header + [open] + inner + [close] + rest == header + after;
    TopLevelFlat(header, after);
    BlockTopLevel(inner, rest);
  }

  /** Whatever the blocks contain, the top level is their headers. */
  lemma {:induction false} TopLevelAsGenerated(items: seq<Item>)
    requires GoodItems(items) && forall i :: 0 <= i < |items| ==> items[i].Scope? || items[i].Blank?
    ensures TopLevel(Shapes(items, 0), 0) == Headers(items)
    decreases |items|
  {
    if items != [] {
      var rest := Shapes(items[1..], 0);
      TopLevelAsGenerated(items[1..]);
      if items[0].Scope? { ScopeTopLevel(items[0], rest); } else { assert [] + rest == rest; }
    }
  }
}
