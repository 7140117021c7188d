/**
 The generated part of the Caddyfile (`appendRouteHandler`, `buildSiteBlockBodyLines`,
 `appendRenderedSiteBlock` in caddy.ts, `staticServingLines` in staticRouting.ts).

 Generated lines are kept as a document of `Item`s. `Lines` is the text pushed for an
 item and `Shapes` the tokens it stands for. `ReadItems` says that the tokenizer reads
 the text as exactly those tokens. From there on block structure is a matter of tokens.
 */
module CaddyRender {
  import opened Text
  import opened CaddyLexer
  import opened CaddyLayout
  import opened CaddySplice
  import opened CaddyInsert
  import opened CaddyChecker

  // ---- Documents -----------------------------------------------------------------

  datatype Piece = Plain(text: string) | Quoted(text: string)

  /** A line of pieces, text from outside, a service tag, a service's own fragment, a block, or an empty line. */
  datatype Item =
    | Written(indent: nat, pieces: seq<Piece>)
    | Verbatim(indent: nat, text: string)
    | Tag(indent: nat, id: string)
    | Custom(indent: nat, fragment: string)
    | Scope(indent: nat, header: seq<Piece>, bodyPad: nat, body: seq<Item>)
    | Blank

  function Spaces(n: nat): string {
    seq(n, _ => ' ')
  }

  function PieceText(p: Piece): string {
    match p
    case Plain(text) => text
    case Quoted(text) => "\"" + text + "\""
  }

  function PiecesText(pieces: seq<Piece>): string {
    if pieces == [] then ""
    else if |pieces| == 1 then PieceText(pieces[0])
    else PieceText(pieces[0]) + " " + PiecesText(pieces[1..])
  }

  function LineText(indent: nat, pieces: seq<Piece>): string {
    Spaces(indent) + PiecesText(pieces)
  }

  const OPEN := Plain("{")
  const CLOSE := Plain("}")

  function TagPieces(id: string): (seq<Piece>, seq<Piece>) {
    ([Plain("log_append"), Plain("service_id"), Plain(id)], [Plain("header"), Plain(">X-Sitey-Service"), Plain(id)])
  }

  /** The two tag lines are pushed as one array element, so only the first can be prefixed. */
  function TagText(indent: nat, id: string): string {
    LineText(indent, TagPieces(id).0) + "\n" + LineText(indent, TagPieces(id).1)
  }

  function FragmentLines(indent: nat, fragment: string): seq<string> {
    if LexOf(fragment).Tokens? then IndentFragment(fragment, Spaces(indent)) else []
  }

  /** The array elements pushed for the items, each prefixed with `pad` spaces. */
  function Lines(items: seq<Item>, pad: nat): seq<string>
    decreases items
  {
    if items == [] then [] else ItemLines(items[0], pad) + Lines(items[1..], pad)
  }

  function ItemLines(item: Item, pad: nat): seq<string>
    decreases item, 0
  {
    match item
    case Written(indent, pieces) => [Spaces(pad) + LineText(indent, pieces)]
    case Verbatim(indent, text) => [Spaces(pad) + (Spaces(indent) + text)]
    case Tag(indent, id) => [Spaces(pad) + TagText(indent, id)]
    case Custom(indent, fragment) => Prefixed(Spaces(pad), FragmentLines(indent, fragment))
    case Scope(indent, header, bodyPad, body) =>
      [Spaces(pad) + LineText(indent, header + [OPEN])]
      + Lines(body, pad + bodyPad)
      + [Spaces(pad) + LineText(indent, [CLOSE])]
    case Blank => [""]
  }

  // ---- What the items stand for --------------------------------------------------

  /** A token without its position. */
  datatype Shape = Shape(text: string, quoted: bool)

  function ShapesOf(tokens: seq<Token>): (r: seq<Shape>)
    ensures |r| == |tokens|
    ensures forall i :: 0 <= i < |r| ==> r[i] == Shape(tokens[i].text, tokens[i].quoted)
  {
    seq(|tokens|, i requires 0 <= i < |tokens| => Shape(tokens[i].text, tokens[i].quoted))
  }

  function PieceShapes(pieces: seq<Piece>): (r: seq<Shape>)
    ensures |r| == |pieces|
    ensures forall i :: 0 <= i < |r| ==> r[i] == Shape(pieces[i].text, pieces[i].Quoted?)
  {
    seq(|pieces|, i requires 0 <= i < |pieces| => Shape(pieces[i].text, pieces[i].Quoted?))
  }

  /** What a text is read as, nothing being in front of it. */
  function TextShapes(text: string): seq<Shape> {
    match LexOf(text)
    case Tokens(tokens, _) => ShapesOf(tokens)
    case Bad(_, _) => []
  }

  /** What a fragment is read as where it is rendered. */
  function FragmentShapes(fragment: string, indent: nat, pad: nat): seq<Shape> {
    if LexOf(fragment).Tokens? then TextShapes(Rendering(fragment, Spaces(indent), Spaces(pad))) else []
  }

  /** A fragment's own tokens, with `pad` after every line feed of a multi-line quote. */
  function OwnShapes(fragment: string, pad: nat): seq<Shape> {
    if LexOf(fragment).Tokens? then ShapesOf(Moved(fragment, 0, Spaces(pad))) else []
  }

  function Shapes(items: seq<Item>, pad: nat): seq<Shape>
    decreases items
  {
    if items == [] then [] else ItemShapes(items[0], pad) + Shapes(items[1..], pad)
  }

  function ItemShapes(item: Item, pad: nat): seq<Shape>
    decreases item, 0
  {
    match item
    case Written(_, pieces) => PieceShapes(pieces)
    case Verbatim(_, text) => TextShapes(text)
    case Tag(_, id) => PieceShapes(TagPieces(id).0) + PieceShapes(TagPieces(id).1)
    case Custom(indent, fragment) => FragmentShapes(fragment, indent, pad)
    case Scope(_, header, bodyPad, body) =>
      PieceShapes(header) + [Shape("{", false)] + Shapes(body, pad + bodyPad) + [Shape("}", false)]
    case Blank => []
  }

  lemma {:induction false} LinesThen(a: seq<Item>, b: seq<Item>, pad: nat)
    ensures Lines(a + b, pad) == Lines(a, pad) + Lines(b, pad)
    decreases |a|
  {
    hide ItemLines;
    if a == [] {
      assert a + b == b;
    } else {
      assert (a + b)[1..] == a[1..] + b;
      LinesThen(a[1..], b, pad);
    }
  }

  lemma {:induction false} DocumentThen(a: seq<Item>, b: seq<Item>, pad: nat)
    ensures Shapes(a + b, pad) == Shapes(a, pad) + Shapes(b, pad)
    decreases |a|
  {
    hide ItemShapes;
    if a == [] {
      assert a + b == b;
    } else {
      assert (a + b)[1..] == a[1..] + b;
      DocumentThen(a[1..], b, pad);
    }
  }

  // ---- Good data -----------------------------------------------------------------

  /** Characters that neither end a word nor mean anything in one. */
  predicate IsWordChar(c: char) {
    !IsSpace(c) && c != '"' && c != '`' && c != '\\'
  }

  predicate IsWord(s: string) {
    && s != "" && s[0] != '#' && !(|s| >= 2 && s[0] == '<' && s[1] == '<')
    && forall i :: 0 <= i < |s| ==> IsWordChar(s[i])
  }

  predicate GoodPiece(p: Piece) {
    match p
    case Plain(text) => IsWord(text) && text != "{" && text != "}"
    case Quoted(text) => (forall i :: 0 <= i < |text| ==> text[i] !in "\"\\\n") && text != "{" && text != "}"
  }

  predicate GoodPieces(pieces: seq<Piece>) {
    pieces != [] && forall i :: 0 <= i < |pieces| ==> GoodPiece(pieces[i])
  }

  /** Pieces that are read back one by one, lone braces included. */
  predicate Legible(pieces: seq<Piece>) {
    pieces != [] && forall i :: 0 <= i < |pieces| ==> pieces[i] in [OPEN, CLOSE] || GoodPiece(pieces[i])
  }

  /** A fragment whose text still tokenizes when re-indenting has taken off its white space. */
  predicate Renders(f: string) {
    LexOf(f).Tokens? && LexOf(Bare(f)).Tokens?
  }

  /** What the tokenizer needs of a document; whether its braces match is another matter. */
  predicate LegibleItem(item: Item)
    decreases item, 0
  {
    match item
    case Written(_, pieces) => Legible(pieces)
    case Verbatim(_, text) => LexOf(text).Tokens?
    case Tag(_, id) => GoodPiece(Plain(id))
    case Custom(_, fragment) => Renders(fragment)
    case Scope(_, header, _, body) => Legible(header) && LegibleItems(body)
    case Blank => true
  }

  predicate LegibleItems(items: seq<Item>)
    decreases items
  {
    forall i :: 0 <= i < |items| ==> LegibleItem(items[i])
  }

  // ---- Reading generated lines back ----------------------------------------------

  ghost predicate Ready(st: State) {
    st.Running? && st.mode.Between? && st.line >= 1
  }

  /** From `st` to `e` the tokenizer has read tokens of exactly these shapes. */
  ghost predicate HasRead(st: State, e: State, shapes: seq<Shape>) {
    && st.Running? && Ready(e) && e.line >= st.line
    && |e.tokens| == |st.tokens| + |shapes|
    && e.tokens[..|st.tokens|] == st.tokens
    && ShapesOf(e.tokens[|st.tokens|..]) == shapes
  }

  lemma HasReadThen(a: State, b: State, c: State, x: seq<Shape>, y: seq<Shape>)
    requires Ready(a) && HasRead(a, b, x) && HasRead(b, c, y)
    ensures HasRead(a, c, x + y)
  {
    assert c.tokens[..|a.tokens|] == b.tokens[..|a.tokens|];
    assert c.tokens[|a.tokens|..] == b.tokens[|a.tokens|..] + c.tokens[|b.tokens|..];
  }

  /** Reads array elements, each followed by a line feed. */
  function ReadLines(st: State, lines: seq<string>): State
    decreases |lines|
  {
    if lines == [] then st else ReadLines(Step(Run(st, lines[0]), '\n', ""), lines[1..])
  }

  lemma {:induction false} ReadLinesThen(st: State, a: seq<string>, b: seq<string>)
    ensures ReadLines(st, a + b) == ReadLines(ReadLines(st, a), b)
    decreases |a|
  {
    if a == [] {
      assert a + b == b;
    } else {
      assert (a + b)[1..] == a[1..] + b;
      ReadLinesThen(Step(Run(st, a[0]), '\n', ""), a[1..], b);
    }
  }

  lemma {:induction false} ReadJoined(st: State, lines: seq<string>)
    requires lines != []
    ensures Step(Run(st, Join(lines)), '\n', "") == ReadLines(st, lines)
    decreases |lines|
  {
    hide Run, Step;
    if |lines| == 1 {
      assert lines[1..] == [];
    } else {
      RunLine(st, lines[0], Join(lines[1..]));
      ReadJoined(Step(Run(st, lines[0]), '\n', ""), lines[1..]);
    }
  }

  lemma {:induction false} RunWordChars(st: State, s: string, start: nat, done: string)
    requires st.Running? && st.mode == Word(done, start)
    requires forall i :: 0 <= i < |s| ==> IsWordChar(s[i])
    ensures Run(st, s) == st.(mode := Word(done + s, start))
    decreases |s|
  {
    if s == "" {
      assert done + s == done;
    } else {
      RunWordChars(st.(mode := Word(done + [s[0]], start)), s[1..], start, done + [s[0]]);
      assert done + [s[0]] + s[1..] == done + s;
    }
  }

  lemma RunWord(st: State, s: string)
    requires Ready(st) && IsWord(s)
    ensures Run(st, s) == st.(mode := Word(s, st.line))
  {
    assert Step(st, s[0], Peek(s)) == st.(mode := Word([s[0]], st.line)) by {
      assert "" + [s[0]] == [s[0]];
    }
    RunWordChars(st.(mode := Word([s[0]], st.line)), s[1..], st.line, [s[0]]);
    assert [s[0]] + s[1..] == s;
  }

  lemma {:induction false} RunQuoteChars(st: State, s: string, start: nat, done: string)
    requires st.Running? && st.mode == Quote('"', done, start)
    requires forall i :: 0 <= i < |s| ==> s[i] !in "\"\\\n"
    ensures Run(st, s + "\"") == EndToken(st.(mode := Quote('"', done + s, start)))
    decreases |s|
  {
    if s == "" {
      assert done + s == done && s + "\"" == "\"";
    } else {
      assert (s + "\"")[1..] == s[1..] + "\"";
      RunQuoteChars(st.(mode := Quote('"', done + [s[0]], start)), s[1..], start, done + [s[0]]);
      assert done + [s[0]] + s[1..] == done + s;
    }
  }

  lemma RunQuoted(st: State, text: string)
    requires Ready(st) && forall i :: 0 <= i < |text| ==> text[i] !in "\"\\\n"
    ensures Run(st, "\"" + text + "\"") == EndToken(st.(mode := Quote('"', text, st.line)))
  {
    var s := "\"" + text + "\"";
    assert s[1..] == text + "\"";
    RunQuoteChars(st.(mode := Quote('"', "", st.line)), text, st.line, "");
    assert "" + text == text;
  }

  /** One piece, and the state right behind it. */
  lemma RunPiece(st: State, p: Piece)
    requires Ready(st) && (p == OPEN || p == CLOSE || GoodPiece(p))
    ensures var e := Run(st, PieceText(p));
            && e.Running? && !e.mode.Quote? && !e.mode.Comment? && e.line == st.line
            && EndToken(e) == st.(tokens := st.tokens + [Token(p.text, p.Quoted?, st.line, st.line)])
  {
    hide Run;
    match p
    case Plain(text) => RunWord(st, text);
    case Quoted(text) => RunQuoted(st, text);
  }

  /** A piece behind which the token ends. */
  lemma ReadPiece(st: State, p: Piece, c: char)
    requires Ready(st) && (p == OPEN || p == CLOSE || GoodPiece(p)) && IsLexSpace(c)
    ensures var e := Step(Run(st, PieceText(p)), c, "");
            && HasRead(st, e, [Shape(p.text, p.Quoted?)])
            && e.line == st.line + if c == '\n' then 1 else 0
  {
    hide Run, GoodPiece, PieceText;
    RunPiece(st, p);
  }

  lemma PieceShapesSplit(p: Piece, pieces: seq<Piece>)
    ensures PieceShapes([p]) == [Shape(p.text, p.Quoted?)]
    ensures PieceShapes([p] + pieces) == [Shape(p.text, p.Quoted?)] + PieceShapes(pieces)
    ensures PieceShapes(pieces + [p]) == PieceShapes(pieces) + [Shape(p.text, p.Quoted?)]
  {
  }

  lemma {:induction false} ReadPieces(st: State, pieces: seq<Piece>)
    requires Ready(st) && Legible(pieces)
    ensures var e := Step(Run(st, PiecesText(pieces)), '\n', "");
            HasRead(st, e, PieceShapes(pieces)) && e.line == st.line + 1
    decreases |pieces|
  {
    hide GoodPiece, PieceText, Run, Step, HasRead, PieceShapes;
    var first, rest := pieces[0], pieces[1..];
    PieceShapesSplit(first, rest);
    assert pieces == [first] + rest;
    if rest == [] {
      assert pieces == [first];
      ReadPiece(st, first, '\n');
    } else {
      ReadPiece(st, first, ' ');
      var mid := Step(Run(st, PieceText(first)), ' ', "");
      ReadyAfter(st, mid, [Shape(first.text, first.Quoted?)]);
      RunBreak(st, PieceText(first), ' ', PiecesText(rest));
      ReadPieces(mid, rest);
      HasReadThen(st, mid, Step(Run(mid, PiecesText(rest)), '\n', ""), [Shape(first.text, first.Quoted?)],
        PieceShapes(rest));
    }
  }

  lemma ReadLine(st: State, pad: nat, indent: nat, pieces: seq<Piece>)
    requires Ready(st) && Legible(pieces)
    ensures var e := Step(Run(st, Spaces(pad) + LineText(indent, pieces)), '\n', "");
            HasRead(st, e, PieceShapes(pieces)) && e.line == st.line + 1
  {
    hide Run, Step, HasRead, PieceShapes, PiecesText, GoodPiece;
    SkipIndent(st, Spaces(pad), LineText(indent, pieces));
    SkipIndent(st, Spaces(indent), PiecesText(pieces));
    ReadPieces(st, pieces);
  }

  lemma ReadTag(st: State, pad: nat, indent: nat, id: string)
    requires Ready(st) && GoodPiece(Plain(id))
    ensures var e := Step(Run(st, Spaces(pad) + TagText(indent, id)), '\n', "");
            HasRead(st, e, ItemShapes(Tag(indent, id), pad)) && e.line == st.line + 2
  {
    hide Run, Step, HasRead, PieceShapes, LineText, TagPieces;
    var (a, b) := TagPieces(id);
    TagPiecesGood(id);
    var first := Spaces(pad) + LineText(indent, a);
    assert Spaces(0) + LineText(indent, b) == LineText(indent, b);
    assert Spaces(pad) + TagText(indent, id) == first + "\n" + LineText(indent, b);
    RunLine(st, first, LineText(indent, b));
    ReadLine(st, pad, indent, a);
    var mid := Step(Run(st, first), '\n', "");
    ReadyAfter(st, mid, PieceShapes(a));
    ReadLine(mid, 0, indent, b);
    HasReadThen(st, mid, Step(Run(mid, LineText(indent, b)), '\n', ""), PieceShapes(a), PieceShapes(b));
  }

  /** Printable ASCII that starts no comment and holds no quote: every word the generator writes itself. */
  predicate IsTame(s: string) {
    s != "" && s[0] > '#' && s[0] != '<' && forall i :: 0 <= i < |s| ==> '!' <= s[i] <= '~' && s[i] !in "\"`\\"
  }

  lemma TameIsGood(s: string)
    requires IsTame(s) && s != "{" && s != "}"
    ensures GoodPiece(Plain(s))
  {
  }

  lemma TagPiecesGood(id: string)
    requires GoodPiece(Plain(id))
    ensures GoodPieces(TagPieces(id).0) && GoodPieces(TagPieces(id).1)
  {
    TagWords();
    hide GoodPiece;
    assert TagPieces(id).0 == [Plain("log_append"), Plain("service_id"), Plain(id)];
    assert TagPieces(id).1 == [Plain("header"), Plain(">X-Sitey-Service"), Plain(id)];
  }

  lemma TagWords()
    ensures GoodPiece(Plain("log_append")) && GoodPiece(Plain("service_id"))
    ensures GoodPiece(Plain("header")) && GoodPiece(Plain(">X-Sitey-Service"))
  {
    TagsTame();
    hide IsTame, GoodPiece;
    TameIsGood("log_append");
    TameIsGood("service_id");
    TameIsGood("header");
    TameIsGood(">X-Sitey-Service");
  }

  lemma TagsTame()
    ensures IsTame("log_append") && IsTame("service_id") && IsTame("header") && IsTame(">X-Sitey-Service")
  {
  }

  lemma ReadyAfter(st: State, e: State, shapes: seq<Shape>)
    requires HasRead(st, e, shapes)
    ensures Ready(e)
  {
  }

  /** A run that matches one from the start of a text, behind a state that is ready. */
  lemma MatchedRead(st: State, e0: State, e: State)
    requires Ready(st) && e0.Running? && !e0.mode.Quote?
    requires Match(e0, 0, e, |st.tokens|, true) && st.tokens <= EndToken(e).tokens && e.line >= st.line
    ensures HasRead(st, Step(e, '\n', ""), ShapesOf(EndToken(e0).tokens))
  {
    EndTokenMatch(e0, 0, e, |st.tokens|, true);
    var next, ts := Step(e, '\n', ""), EndToken(e0).tokens;
    assert next == Newline(EndToken(e));
    assert next.tokens[..|st.tokens|] == st.tokens;
    assert ShapesOf(next.tokens[|st.tokens|..]) == ShapesOf(ts);
  }

  /** A rendered fragment is read wherever it stands as the tokens of its rendering. */
  lemma ReadFragment(st: State, pad: nat, indent: nat, fragment: string)
    requires Ready(st) && Renders(fragment)
    ensures LexOf(Rendering(fragment, Spaces(indent), Spaces(pad))).Tokens?
    ensures HasRead(st, ReadLines(st, Prefixed(Spaces(pad), FragmentLines(indent, fragment))),
                    FragmentShapes(fragment, indent, pad))
  {
    hide Run, IndentFragment, Prefixed, Join, Step, HasRead;
    var lines := Prefixed(Spaces(pad), IndentFragment(fragment, Spaces(indent)));
    var text := Rendering(fragment, Spaces(indent), Spaces(pad));
    RenderingMatch(fragment, Spaces(indent), Spaces(pad));
    var e0, e := Run(START, text), Run(st, text);
    MatchedTokenizes(Run(START, Bare(fragment)), e0);
    ShiftMatch(st, text);
    TokensGrow(st, text);
    ContinuationsLater(st, text);
    MatchedRead(st, e0, e);
    ReadJoined(st, lines);
  }

  /** A text from outside is read wherever it stands as the tokens it has alone. */
  lemma ReadVerbatim(st: State, pad: nat, indent: nat, text: string)
    requires Ready(st) && LexOf(text).Tokens?
    ensures HasRead(st, ReadLines(st, [Spaces(pad) + (Spaces(indent) + text)]), TextShapes(text))
  {
    hide Run, Step, HasRead;
    SkipIndent(st, Spaces(pad), Spaces(indent) + text);
    SkipIndent(st, Spaces(indent), text);
    ShiftMatch(st, text);
    TokensGrow(st, text);
    ContinuationsLater(st, text);
    MatchedRead(st, Run(START, text), Run(st, text));
    ReadOne(st, Spaces(pad) + (Spaces(indent) + text));
  }

  lemma MatchedTokenizes(e: State, e': State)
    requires Finish(e).Tokens? && Match(e, 0, e', 0, false)
    ensures Finish(e').Tokens? && Finish(e').tokens == EndToken(e').tokens && e'.Running? && !e'.mode.Quote?
  {
  }

  /** A fragment that keeps its tokens is read as them. */
  lemma KeptShapes(f: string, indent: nat, pad: nat)
    requires KeepsTokens(f)
    ensures Renders(f) && FragmentShapes(f, indent, pad) == OwnShapes(f, pad)
  {
    hide Run, IndentFragment, Prefixed, Join, PlainEnd, PlainLeads, Moved;
    SpliceTokens(START, f, Spaces(indent), Spaces(pad));
    SpliceTokens(START, f, "", "");
    NoPrefix(IndentFragment(f, ""));
    assert [] + Moved(f, 0, Spaces(pad)) == Moved(f, 0, Spaces(pad));
  }

  lemma AcceptedTokenizes(f: string)
    requires CheckOf(f).Accepted?
    ensures LexOf(f).Tokens? && CheckLines([], Grouped(LexOf(f).tokens)) == Next([])
  {
    hide LexOf, CheckLines, Grouped, Trim;
  }

  /** The text of a document reads back as the document's tokens, wherever it stands. */
  lemma {:induction false} ReadItems(st: State, items: seq<Item>, pad: nat)
    requires Ready(st) && LegibleItems(items)
    ensures HasRead(st, ReadLines(st, Lines(items, pad)), Shapes(items, pad))
    decreases items
  {
    hide HasRead, ReadLines;
    if items == [] {
      assert HasRead(st, ReadLines(st, []), []) by { ReadNothing(st); }
    } else {
      ReadItem(st, items[0], pad);
      var mid := ReadLines(st, ItemLines(items[0], pad));
      ReadyAfter(st, mid, ItemShapes(items[0], pad));
      ReadItems(mid, items[1..], pad);
      ReadLinesThen(st, ItemLines(items[0], pad), Lines(items[1..], pad));
      HasReadThen(st, mid, ReadLines(mid, Lines(items[1..], pad)), ItemShapes(items[0], pad), Shapes(items[1..], pad));
    }
  }

  lemma ReadNothing(st: State)
    requires Ready(st)
    ensures HasRead(st, ReadLines(st, []), [])
  {
  }

  lemma {:induction false} ReadItem(st: State, item: Item, pad: nat)
    requires Ready(st) && LegibleItem(item)
    ensures HasRead(st, ReadLines(st, ItemLines(item, pad)), ItemShapes(item, pad))
    decreases item, 1
  {
    match item
    case Written(indent, pieces) =>
      ReadWritten(st, pad, indent, pieces);
    case Verbatim(indent, text) =>
      ReadVerbatim(st, pad, indent, text);
    case Tag(indent, id) =>
      ReadTag(st, pad, indent, id);
      ReadOne(st, Spaces(pad) + TagText(indent, id));
    case Custom(indent, fragment) =>
      ReadFragment(st, pad, indent, fragment);
    case Scope(indent, header, bodyPad, body) =>
      ReadScope(st, item, pad);
    case Blank =>
      ReadOne(st, "");
  }

  lemma ReadOne(st: State, line: string)
    ensures ReadLines(st, [line]) == Step(Run(st, line), '\n', "")
  {
    assert [line][1..] == [];
  }

  lemma {:induction false} ReadScope(st: State, item: Item, pad: nat)
    requires Ready(st) && item.Scope? && Legible(item.header) && LegibleItems(item.body)
    ensures HasRead(st, ReadLines(st, ItemLines(item, pad)), ItemShapes(item, pad))
    decreases item, 0
  {
    hide HasRead, ReadLines, LegibleItems, GoodPiece, LineText, PieceShapes, Run, Step;
    var header, deeper := item.header + [OPEN], pad + item.bodyPad;
    ReadWritten(st, pad, item.indent, header);
    var a := ReadLines(st, [Spaces(pad) + LineText(item.indent, header)]);
    ReadItems(a, item.body, deeper);
    var b := ReadLines(a, Lines(item.body, deeper));
    ReadyAfter(a, b, Shapes(item.body, deeper));
    ReadWritten(b, pad, item.indent, [CLOSE]);
    var c := ReadLines(b, [Spaces(pad) + LineText(item.indent, [CLOSE])]);
    HasReadThen(st, a, b, PieceShapes(header), Shapes(item.body, deeper));
    HasReadThen(st, b, c, PieceShapes(header) + Shapes(item.body, deeper), PieceShapes([CLOSE]));
    PieceShapesSplit(OPEN, item.header);
    PieceShapesSplit(CLOSE, []);
    ReadLinesThen3(st, [Spaces(pad) + LineText(item.indent, header)], Lines(item.body, deeper),
                   [Spaces(pad) + LineText(item.indent, [CLOSE])]);
  }

  lemma ReadLinesThen3(st: State, a: seq<string>, b: seq<string>, c: seq<string>)
    ensures ReadLines(st, a + b + c) == ReadLines(ReadLines(ReadLines(st, a), b), c)
  {
    hide ReadLines;
    ReadLinesThen(st, a + b, c);
    ReadLinesThen(st, a, b);
  }

  lemma ReadWritten(st: State, pad: nat, indent: nat, pieces: seq<Piece>)
    requires Ready(st) && Legible(pieces)
    ensures var e := ReadLines(st, [Spaces(pad) + LineText(indent, pieces)]);
            HasRead(st, e, PieceShapes(pieces)) && Ready(e) && e.line == st.line + 1
  {
    hide HasRead, GoodPiece, LineText, PieceShapes, Run, Step;
    ReadLine(st, pad, indent, pieces);
    ReadOne(st, Spaces(pad) + LineText(indent, pieces));
    ReadyAfter(st, ReadLines(st, [Spaces(pad) + LineText(indent, pieces)]), PieceShapes(pieces));
  }
}
