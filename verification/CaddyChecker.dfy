/**
 The scope check of custom Caddy fragments (`checkCaddyFragment` in staticRouting.ts)
 and the grammar it decides.

 The source walks token lines with a stack of open blocks. `Legal` says what is allowed
 without any stack: a fragment is a forest of lines and blocks, and whether a line is a
 directive depends only on the blocks around it. `AcceptsExactlyTheGrammar` is the
 equivalence; `FirstBadLine` says that the check stops at the earliest line it can.
 */
module CaddyChecker {
  import opened Text
  import opened Wrappers
  import opened CaddyLexer

  const ALLOWED_DIRECTIVES: set<string> := {
    "abort", "basic_auth", "basicauth", "encode", "error", "file_server", "handle", "handle_path", "header",
    "method", "redir", "request_body", "request_header", "respond", "rewrite", "route", "try_files", "uri"
  }
  const CONTAINER_DIRECTIVES: set<string> := {"handle", "handle_path", "route"}
  const FORBIDDEN_SUBDIRECTIVES: set<string> := {"root", "fs", "import"}
  const FORBIDDEN_PLACEHOLDERS := ["{$", "{env.", "{file."]

  datatype Problem =
    | Empty
    | Placeholder
    | Lexical(error: LexError)
    | QuotedBrace
    | CloseNotAlone
    | UnmatchedClose
    | OpenNotLast
    | OpenAlone
    | QuotedDirective
    | BadMatcher
    | NotAllowed
    | ForbiddenSubdirective
    | BrowseTemplate
    | NeverClosed

  datatype Verdict = Accepted | Rejected(line: nat, problem: Problem)

  type Line = tokens: seq<Token> | tokens != [] witness [Token("x", false, 1, 1)]

  /** An open block; `container` says whether its lines are directives. */
  datatype Block = Block(directive: string, container: bool, line: nat)

  datatype Outcome = Next(stack: seq<Block>) | Stop(line: nat, problem: Problem)

  predicate LoneBrace(t: Token) {
    t.text == "{" || t.text == "}"
  }

  predicate IsOpen(t: Token) {
    !t.quoted && t.text == "{"
  }

  predicate IsClose(t: Token) {
    !t.quoted && t.text == "}"
  }

  predicate IsNameChar(c: char) {
    'a' <= c <= 'z' || 'A' <= c <= 'Z' || '0' <= c <= '9' || c == '_' || c == '-'
  }

  /** `/^@[A-Za-z0-9_-]+$/`. */
  predicate ValidMatcher(name: string) {
    |name| >= 2 && name[0] == '@' && forall i :: 1 <= i < |name| ==> IsNameChar(name[i])
  }

  // ---- The source: grouping, one line, all lines --------------------------------

  /** A token that starts where the last one ended is on its line; any other starts a line. */
  function Grow(lines: seq<Line>, t: Token): seq<Line> {
    if lines == [] then [[t]]
    else
      var n := |lines| - 1;
      var last: seq<Token> := lines[n];
      if last[|last| - 1].endLine == t.line then lines[..n] + [last + [t]] else lines + [[t]]
  }

  function Grouped(tokens: seq<Token>): seq<Line> {
    if tokens == [] then [] else Grow(Grouped(tokens[..|tokens| - 1]), tokens[|tokens| - 1])
  }

  /** The position of the first token with this text, or the length. */
  function IndexOfText(line: seq<Token>, text: string): (i: nat)
    ensures i <= |line| && (i < |line| ==> line[i].text == text)
    ensures forall k :: 0 <= k < i ==> line[k].text != text
  {
    if line == [] || line[0].text == text then 0 else 1 + IndexOfText(line[1..], text)
  }

  /** The position of the first brace alone in quotes, or the length. */
  function QuotedBraceAt(line: seq<Token>): (i: nat)
    ensures i <= |line| && (i < |line| ==> line[i].quoted && LoneBrace(line[i]))
    ensures forall k :: 0 <= k < i ==> !(line[k].quoted && LoneBrace(line[k]))
  {
    if line == [] || (line[0].quoted && LoneBrace(line[0])) then 0 else 1 + QuotedBraceAt(line[1..])
  }

  predicate InDirectives(stack: seq<Block>) {
    stack == [] || stack[|stack| - 1].container
  }

  /** Where a `browse` subdirective is named, or the length of the line. */
  function BrowseAt(stack: seq<Block>, line: Line): (i: nat)
    ensures i <= |line|
  {
    if InDirectives(stack) && line[0].text == "file_server" then IndexOfText(line, "browse")
    else if stack != [] && stack[|stack| - 1].directive == "file_server" && line[0].text == "browse" then 0
    else |line|
  }

  /** The block that a header opens. */
  function BlockOf(stack: seq<Block>, header: Line): Block {
    Block(header[0].text, InDirectives(stack) && header[0].text in CONTAINER_DIRECTIVES, header[0].line)
  }

  /** What is wrong with the first token of a line, as a directive or as a subdirective. */
  function NameProblem(inDirectives: bool, first: Token): Option<Problem> {
    var name := first.text;
    if inDirectives then
      if first.quoted then Some(QuotedDirective)
      else if name != "" && name[0] == '@' then
        if ValidMatcher(name) then None else Some(BadMatcher)
      else if name in ALLOWED_DIRECTIVES then None
      else Some(NotAllowed)
    else if !first.quoted && name in FORBIDDEN_SUBDIRECTIVES then Some(ForbiddenSubdirective)
    else None
  }

  /** One token line against the open blocks, in the source's order of checks. */
  function CheckLine(stack: seq<Block>, line: Line): Outcome {
    var first, last := line[0], line[|line| - 1];
    if QuotedBraceAt(line) < |line| then Stop(line[QuotedBraceAt(line)].line, QuotedBrace)
    else if IsClose(first) then
      if |line| > 1 then Stop(first.line, CloseNotAlone)
      else if stack == [] then Stop(first.line, UnmatchedClose)
      else Next(stack[..|stack| - 1])
    else if exists i :: 0 <= i < |line| && IsClose(line[i]) then Stop(first.line, CloseNotAlone)
    else if exists i :: 0 <= i < |line| - 1 && IsOpen(line[i]) then Stop(first.line, OpenNotLast)
    else if IsOpen(last) && |line| == 1 then Stop(first.line, OpenAlone)
    else if NameProblem(InDirectives(stack), first).Some? then
      Stop(first.line, NameProblem(InDirectives(stack), first).value)
    else if exists j :: BrowseAt(stack, line) < j < |line| && !(IsOpen(line[j]) || IsClose(line[j])) then
      Stop(first.line, BrowseTemplate)
    else if IsOpen(last) then Next(stack + [BlockOf(stack, line)])
    else Next(stack)
  }

  function CheckLines(stack: seq<Block>, lines: seq<Line>): Outcome
    decreases |lines|
  {
    if lines == [] then Next(stack)
    else
      match CheckLine(stack, lines[0])
      case Stop(line, problem) => Stop(line, problem)
      case Next(stack') => CheckLines(stack', lines[1..])
  }

  /** The first position of `pattern` in `s`, or the length of `s` when there is none. */
  function IndexOf(s: string, pattern: string): (i: nat)
    requires pattern != ""
    ensures i <= |s| && (i < |s| ==> pattern <= s[i..])
    ensures forall k :: 0 <= k < i ==> !(pattern <= s[k..])
  {
    if s == "" || pattern <= s then 0
    else
      var i := 1 + IndexOf(s[1..], pattern);
      assert forall k :: 1 <= k <= |s| ==> s[1..][k - 1..] == s[k..];
      i
  }

  function LineOf(s: string, index: nat): nat
    requires index <= |s|
  {
    |Split(s[..index])|
  }

  /** The first forbidden placeholder, pattern by pattern as the source looks for them. */
  function PlaceholderLine(s: string, k: nat): Verdict
    requires k <= 3
    decreases 3 - k
  {
    if k == 3 then Accepted
    else
      var i := IndexOf(s, FORBIDDEN_PLACEHOLDERS[k]);
      if i < |s| then Rejected(LineOf(s, i), Placeholder) else PlaceholderLine(s, k + 1)
  }

  function VerdictOf(outcome: Outcome): Verdict {
    match outcome
    case Stop(line, problem) => Rejected(line, problem)
    case Next(stack) => if stack == [] then Accepted else Rejected(stack[|stack| - 1].line, NeverClosed)
  }

  function CheckOf(input: string): Verdict {
    if Trim(input) == "" then Rejected(0, Empty)
    else if PlaceholderLine(input, 0).Rejected? then PlaceholderLine(input, 0)
    else
      match LexOf(input)
      case Bad(at, error) => Rejected(at, Lexical(error))
      case Tokens(tokens, _) => VerdictOf(CheckLines([], Grouped(tokens)))
  }

  method GroupTokens(tokens: seq<Token>) returns (lines: seq<Line>)
    ensures lines == Grouped(tokens)
  {
    lines := [];
    for i := 0 to |tokens|
      invariant lines == Grouped(tokens[..i])
    {
      var t := tokens[i];
      assert tokens[..i + 1][..i] == tokens[..i];
      assert Grouped(tokens[..i + 1]) == Grow(lines, t);
      if lines != [] && lines[|lines| - 1][|lines[|lines| - 1]| - 1].endLine == t.line {
        lines := lines[|lines| - 1 := lines[|lines| - 1] + [t]];
      } else {
        lines := lines + [[t]];
      }
    }
    assert tokens[..|tokens|] == tokens;
  }

  method CheckTokenLines(lines: seq<Line>) returns (verdict: Verdict)
    ensures verdict == VerdictOf(CheckLines([], lines))
  {
    var stack: seq<Block> := [];
    for i := 0 to |lines|
      invariant CheckLines([], lines) == CheckLines(stack, lines[i..])
    {
      var outcome := CheckLine(stack, lines[i]);
      assert lines[i..][1..] == lines[i + 1..];
      if outcome.Stop? {
        return Rejected(outcome.line, outcome.problem);
      }
      stack := outcome.stack;
    }
    if stack != [] {
      return Rejected(stack[|stack| - 1].line, NeverClosed);
    }
    return Accepted;
  }

  method CheckCaddyFragment(input: string) returns (verdict: Verdict)
    ensures verdict == CheckOf(input)
  {
    hide Trim, LexOf, Grouped, CheckLines, LineOf, IndexOf;
    if Trim(input) == "" {
      return Rejected(0, Empty);
    }
    for k := 0 to 3
      invariant PlaceholderLine(input, 0) == PlaceholderLine(input, k)
    {
      var index := IndexOf(input, FORBIDDEN_PLACEHOLDERS[k]);
      if index < |input| {
        return Rejected(LineOf(input, index), Placeholder);
      }
    }
    var lexed := Lex(input);
    if lexed.Bad? {
      return Rejected(lexed.at, Lexical(lexed.error));
    }
    var lines := GroupTokens(lexed.tokens);
    verdict := CheckTokenLines(lines);
  }

  // ---- The grammar ---------------------------------------------------------------

  /** What a fragment is: lines and blocks of lines, in order. */
  datatype Forest =
    | End
    | Simple(line: Line, rest: Forest)
    | Nested(header: Line, body: Forest, close: Token, rest: Forest)

  function ForestLines(f: Forest): seq<Line> {
    match f
    case End => []
    case Simple(line, rest) => [line] + ForestLines(rest)
    case Nested(header, body, close, rest) => [header] + ForestLines(body) + [[close]] + ForestLines(rest)
  }

  /** No brace alone in a token, quoted or not. */
  ghost predicate Braceless(line: seq<Token>) {
    forall i :: 0 <= i < |line| ==> !LoneBrace(line[i])
  }

  ghost predicate OpensBlock(line: Line) {
    |line| >= 2 && IsOpen(line[|line| - 1]) && Braceless(line[..|line| - 1])
  }

  ghost predicate AllContainers(ancestors: seq<string>) {
    forall i :: 0 <= i < |ancestors| ==> ancestors[i] in CONTAINER_DIRECTIVES
  }

  /** A directive where all blocks around are containers, a harmless subdirective elsewhere. */
  ghost predicate LegalName(first: Token, ancestors: seq<string>) {
    if AllContainers(ancestors) then
      !first.quoted && (first.text in ALLOWED_DIRECTIVES || ValidMatcher(first.text))
    else
      first.quoted || first.text !in FORBIDDEN_SUBDIRECTIVES
  }

  /** `browse` never names a template: nothing but the block's brace follows it. */
  ghost predicate NoTemplate(line: Line, ancestors: seq<string>) {
    && (AllContainers(ancestors) && line[0].text == "file_server" ==>
          forall i, j :: 0 <= i < j < |line| && line[i].text == "browse" ==> IsOpen(line[j]))
    && (ancestors != [] && ancestors[|ancestors| - 1] == "file_server" && line[0].text == "browse" ==>
          forall j :: 1 <= j < |line| ==> IsOpen(line[j]))
  }

  ghost predicate LegalLine(line: Line, ancestors: seq<string>) {
    LegalName(line[0], ancestors) && NoTemplate(line, ancestors)
  }

  ghost predicate Legal(f: Forest, ancestors: seq<string>) {
    match f
    case End => true
    case Simple(line, rest) => Braceless(line) && LegalLine(line, ancestors) && Legal(rest, ancestors)
    case Nested(header, body, close, rest) =>
      && OpensBlock(header) && LegalLine(header, ancestors)
      && Legal(body, ancestors + [header[0].text])
      && IsClose(close)
      && Legal(rest, ancestors)
  }

  // ---- Token lines, without the loop ---------------------------------------------

  function Concat(lines: seq<Line>): seq<Token> {
    if lines == [] then [] else Concat(lines[..|lines| - 1]) + lines[|lines| - 1]
  }

  /** Inside a line, each token starts where the one before it ended. */
  ghost predicate Chained(line: Line) {
    forall i :: 0 <= i < |line| - 1 ==> line[i].endLine == line[i + 1].line
  }

  /** From one line to the next there is a break. */
  ghost predicate Broken(line: Line, next: Line) {
    line[|line| - 1].endLine != next[0].line
  }

  ghost predicate CutAtBreaks(lines: seq<Line>) {
    && (forall k :: 0 <= k < |lines| ==> Chained(lines[k]))
    && (forall k :: 0 <= k < |lines| - 1 ==> Broken(lines[k], lines[k + 1]))
  }

  lemma LastGrows(lines: seq<Line>, t: Token)
    requires lines != [] && CutAtBreaks(lines)
    requires var last := lines[|lines| - 1]; last[|last| - 1].endLine == t.line
    ensures var n := |lines| - 1; CutAtBreaks(lines[..n] + [lines[n] + [t]])
  {
    var n := |lines| - 1;
    var grown: Line := lines[n] + [t];
    assert Chained(grown) by {
      forall i | 0 <= i < |grown| - 1 ensures grown[i].endLine == grown[i + 1].line {
        assert grown[i] == lines[n][i];
      }
    }
    if n > 0 { assert Broken(lines[n - 1], lines[n]) && grown[0] == lines[n][0]; }
  }

  lemma LineAdded(lines: seq<Line>, t: Token)
    requires CutAtBreaks(lines)
    requires lines != [] ==> var last := lines[|lines| - 1]; last[|last| - 1].endLine != t.line
    ensures CutAtBreaks(lines + [[t]])
  {
  }

  lemma GrowCutsAtBreaks(lines: seq<Line>, t: Token)
    requires CutAtBreaks(lines)
    ensures CutAtBreaks(Grow(lines, t)) && Concat(Grow(lines, t)) == Concat(lines) + [t]
  {
    hide CutAtBreaks, Concat;
    var n := |lines| - 1;
    if lines != [] && lines[n][|lines[n]| - 1].endLine == t.line {
      LastGrows(lines, t);
      ConcatLast(lines[..n], lines[n] + [t]);
      ConcatLast(lines[..n], lines[n]);
      assert lines == lines[..n] + [lines[n]];
    } else {
      LineAdded(lines, t);
      ConcatLast(lines, [t]);
      assert [] + [[t]] == [[t]];
    }
  }

  /** Grouping loses and reorders nothing, and cuts exactly at the line breaks. */
  lemma {:induction false} GroupedCutsAtBreaks(tokens: seq<Token>)
    ensures Concat(Grouped(tokens)) == tokens && CutAtBreaks(Grouped(tokens))
  {
    hide CutAtBreaks, Grow;
    if tokens == [] {
      LineAddedToNone();
    } else {
      GroupedCutsAtBreaks(tokens[..|tokens| - 1]);
      GrowCutsAtBreaks(Grouped(tokens[..|tokens| - 1]), tokens[|tokens| - 1]);
    }
  }

  lemma LineAddedToNone()
    ensures CutAtBreaks([])
  {
  }

  lemma ConcatLast(lines: seq<Line>, line: Line)
    ensures Concat(lines + [line]) == Concat(lines) + line
  {
    assert (lines + [line])[..|lines|] == lines;
  }

  // ---- The stack is the path of ancestors ----------------------------------------

  ghost predicate StackOf(stack: seq<Block>, ancestors: seq<string>) {
    if stack == [] then ancestors == []
    else
      var n := |stack| - 1;
      && |ancestors| == |stack|
      && stack[n].directive == ancestors[n]
      && (stack[n].container <==> AllContainers(ancestors))
      && StackOf(stack[..n], ancestors[..n])
  }

  lemma StackTop(stack: seq<Block>, ancestors: seq<string>)
    requires StackOf(stack, ancestors)
    ensures InDirectives(stack) <==> AllContainers(ancestors)
    ensures |stack| == |ancestors|
    ensures stack != [] ==> stack[|stack| - 1].directive == ancestors[|ancestors| - 1]
  {
  }

  /** The block the check pushes for a header is the one the grammar descends into. */
  lemma StackPush(stack: seq<Block>, ancestors: seq<string>, header: Line)
    requires StackOf(stack, ancestors)
    ensures StackOf(stack + [BlockOf(stack, header)], ancestors + [header[0].text])
  {
    StackTop(stack, ancestors);
    var deeper, b := ancestors + [header[0].text], BlockOf(stack, header);
    assert (stack + [b])[..|stack|] == stack && deeper[..|ancestors|] == ancestors;
    assert b.container <==> AllContainers(deeper) by {
      if AllContainers(deeper) {
        forall i | 0 <= i < |ancestors| ensures ancestors[i] in CONTAINER_DIRECTIVES {
          assert deeper[i] == ancestors[i];
        }
        assert deeper[|ancestors|] == header[0].text;
      }
    }
  }

  // ---- One line: check and grammar agree -----------------------------------------

  lemma TemplateAgrees(stack: seq<Block>, ancestors: seq<string>, line: Line)
    requires StackOf(stack, ancestors)
    requires Braceless(line[..|line| - 1]) && !IsClose(line[|line| - 1])
    ensures NoTemplate(line, ancestors) <==>
            !exists j :: BrowseAt(stack, line) < j < |line| && !(IsOpen(line[j]) || IsClose(line[j]))
  {
    StackTop(stack, ancestors);
    assert forall k :: 0 <= k < |line| - 1 ==> line[k] == line[..|line| - 1][k];
    var at := BrowseAt(stack, line);
    if NoTemplate(line, ancestors) {
      forall j | at < j < |line| ensures IsOpen(line[j]) { assert line[at].text == "browse"; }
    }
  }

  lemma NameAgrees(stack: seq<Block>, ancestors: seq<string>, first: Token)
    requires StackOf(stack, ancestors)
    ensures LegalName(first, ancestors) <==> NameProblem(InDirectives(stack), first).None?
  {
    StackTop(stack, ancestors);
    assert forall d <- ALLOWED_DIRECTIVES :: d[0] != '@';
  }

  ghost predicate ClosesBlock(line: Line) {
    |line| == 1 && IsClose(line[0])
  }

  /** What the grammar allows, the check lets through. */
  lemma LegalLinePasses(stack: seq<Block>, ancestors: seq<string>, line: Line)
    requires StackOf(stack, ancestors)
    ensures Braceless(line) && LegalLine(line, ancestors) ==> CheckLine(stack, line) == Next(stack)
    ensures OpensBlock(line) && LegalLine(line, ancestors) ==>
              CheckLine(stack, line) == Next(stack + [BlockOf(stack, line)])
  {
    hide LegalName, NameProblem, NoTemplate, BrowseAt, InDirectives, StackOf, BlockOf;
    var init, last := line[..|line| - 1], line[|line| - 1];
    assert forall k :: 0 <= k < |line| - 1 ==> line[k] == init[k];
    if (Braceless(line) || OpensBlock(line)) && LegalLine(line, ancestors) {
      NameAgrees(stack, ancestors, line[0]);
      TemplateAgrees(stack, ancestors, line);
    }
  }

  lemma CloseLinePops(stack: seq<Block>, line: Line)
    requires ClosesBlock(line)
    ensures CheckLine(stack, line) ==
            if stack == [] then Stop(line[0].line, UnmatchedClose) else Next(stack[..|stack| - 1])
  {
  }

  /** What the check lets through, the grammar allows. */
  lemma PassedLineLegal(stack: seq<Block>, ancestors: seq<string>, line: Line)
    requires StackOf(stack, ancestors) && CheckLine(stack, line).Next?
    ensures || (ClosesBlock(line) && stack != [])
            || ((Braceless(line) || OpensBlock(line)) && LegalLine(line, ancestors))
  {
    hide LegalName, NameProblem, NoTemplate, BrowseAt, InDirectives, StackOf, BlockOf;
    NameAgrees(stack, ancestors, line[0]);
    var init, last := line[..|line| - 1], line[|line| - 1];
    assert forall k :: 0 <= k < |line| - 1 ==> line[k] == init[k];
    if Braceless(init) && !IsClose(last) {
      TemplateAgrees(stack, ancestors, line);
    }
  }

  // ---- All lines: check and grammar agree ----------------------------------------

  lemma {:induction false} CheckAppend(stack: seq<Block>, a: seq<Line>, b: seq<Line>)
    ensures CheckLines(stack, a + b) ==
            match CheckLines(stack, a)
            case Stop(line, problem) => Stop(line, problem)
            case Next(stack') => CheckLines(stack', b)
    decreases |a|
  {
    if a == [] {
      assert a + b == b;
    } else {
      assert (a + b)[1..] == a[1..] + b;
      if CheckLine(stack, a[0]).Next? { CheckAppend(CheckLine(stack, a[0]).stack, a[1..], b); }
    }
  }

  /** A legal forest leaves the stack as it found it. */
  lemma {:induction false} LegalPasses(f: Forest, ancestors: seq<string>, stack: seq<Block>)
    requires Legal(f, ancestors) && StackOf(stack, ancestors)
    ensures CheckLines(stack, ForestLines(f)) == Next(stack)
  {
    hide CheckLine, BlockOf, LegalLine, Braceless, OpensBlock, IsClose, StackOf;
    match f
    case End =>
    case Simple(line, rest) =>
      LegalLinePasses(stack, ancestors, line);
      LegalPasses(rest, ancestors, stack);
      assert ForestLines(f)[1..] == ForestLines(rest);
    case Nested(header, body, close, rest) =>
      StackPush(stack, ancestors, header);
      LegalPasses(body, ancestors + [header[0].text], stack + [BlockOf(stack, header)]);
      LegalPasses(rest, ancestors, stack);
      NestedPasses(header, ForestLines(body), close, ForestLines(rest), ancestors, stack);
      assert ForestLines(f) == [header] + (ForestLines(body) + ([[close]] + ForestLines(rest)));
  }

  lemma NestedPasses(header: Line, body: seq<Line>, close: Token, rest: seq<Line>, ancestors: seq<string>,
                     stack: seq<Block>)
    requires StackOf(stack, ancestors) && OpensBlock(header) && LegalLine(header, ancestors) && IsClose(close)
    requires var inner := stack + [BlockOf(stack, header)]; CheckLines(inner, body) == Next(inner)
    ensures CheckLines(stack, [header] + (body + ([[close]] + rest))) == CheckLines(stack, rest)
  {
    hide CheckLine, OpensBlock, LegalLine, BlockOf;
    var inner := stack + [BlockOf(stack, header)];
    LegalLinePasses(stack, ancestors, header);
    StackPush(stack, ancestors, header);
    CloseLinePops(inner, [close]);
    assert inner[..|stack|] == stack;
    assert ([header] + (body + ([[close]] + rest)))[1..] == body + ([[close]] + rest);
    CheckAppend(inner, body, [[close]] + rest);
    assert ([[close]] + rest)[1..] == rest;
  }

  /**
   Reads as much of `lines` as belongs to the innermost open block: a legal forest,
   ending at the end of the lines or at the line that closes the block.
   */
  lemma {:induction false} ReadForest(stack: seq<Block>, ancestors: seq<string>, lines: seq<Line>)
      returns (f: Forest, rest: seq<Line>)
    requires StackOf(stack, ancestors)
    requires CheckLines(stack, lines).Next? && |CheckLines(stack, lines).stack| <= |stack|
    ensures Legal(f, ancestors) && lines == ForestLines(f) + rest
    ensures CheckLines(stack, rest) == CheckLines(stack, lines)
    ensures rest == [] || (ClosesBlock(rest[0]) && stack != [])
    decreases |lines|
  {
    hide CheckLine, BlockOf, LegalLine, Braceless, OpensBlock, StackOf;
    f, rest := End, lines;
    if lines != [] && !ClosesBlock(lines[0]) {
      var line, after := lines[0], lines[1..];
      PassedLineLegal(stack, ancestors, line);
      LegalLinePasses(stack, ancestors, line);
      assert lines == [line] + after;
      if Braceless(line) {
        f, rest := ReadForest(stack, ancestors, after);
        f := Simple(line, f);
      } else {
        f, rest := ReadBlock(stack, ancestors, line, after);
      }
    }
    if lines != [] && ClosesBlock(lines[0]) { CloseLinePops(stack, lines[0]); }
  }

  lemma {:induction false} ReadBlock(stack: seq<Block>, ancestors: seq<string>, header: Line, after: seq<Line>)
      returns (f: Forest, rest: seq<Line>)
    requires StackOf(stack, ancestors) && OpensBlock(header) && LegalLine(header, ancestors)
    requires var all := [header] + after;
             && CheckLines(stack, all).Next? && |CheckLines(stack, all).stack| <= |stack|
    ensures Legal(f, ancestors) && [header] + after == ForestLines(f) + rest
    ensures CheckLines(stack, rest) == CheckLines(stack, [header] + after)
    ensures rest == [] || (ClosesBlock(rest[0]) && stack != [])
    decreases |after| + 1, 0
  {
    hide CheckLine, BlockOf, LegalLine, Braceless, OpensBlock, StackOf;
    var inner, deeper := stack + [BlockOf(stack, header)], ancestors + [header[0].text];
    LegalLinePasses(stack, ancestors, header);
    StackPush(stack, ancestors, header);
    assert ([header] + after)[1..] == after;
    var body, closing := ReadForest(inner, deeper, after);
    assert closing != [];
    CloseLinePops(inner, closing[0]);
    assert inner[..|stack|] == stack;
    var tail, rest' := ReadForest(stack, ancestors, closing[1..]);
    f, rest := Nested(header, body, closing[0][0], tail), rest';
    BlockLines(header, body, closing, tail, rest);
  }

  lemma BlockLines(header: Line, body: Forest, closing: seq<Line>, tail: Forest, rest: seq<Line>)
    requires closing != [] && ClosesBlock(closing[0]) && closing[1..] == ForestLines(tail) + rest
    ensures [header] + (ForestLines(body) + closing) == ForestLines(Nested(header, body, closing[0][0], tail)) + rest
  {
    assert closing[0] == [closing[0][0]] && closing == [closing[0]] + closing[1..];
  }

  /**
   The check accepts a fragment exactly when it is not blank, names no forbidden
   placeholder, tokenizes, and its token lines are a legal forest.
   */
  lemma AcceptsExactlyTheGrammar(input: string)
    ensures CheckOf(input).Accepted? <==>
            && !AllSpace(input)
            && !Occurs(input, "{$") && !Occurs(input, "{env.") && !Occurs(input, "{file.")
            && LexOf(input).Tokens?
            && exists f :: Legal(f, []) && ForestLines(f) == Grouped(LexOf(input).tokens)
  {
    hide CheckLines, Grouped, LexOf, Trim, LineOf, IndexOf;
    TrimBlank(input);
    PlaceholdersAgree(input);
    if LexOf(input).Tokens? {
      TreeExists(Grouped(LexOf(input).tokens));
    }
  }

  lemma TreeExists(lines: seq<Line>)
    ensures CheckLines([], lines) == Next([]) <==> exists f :: Legal(f, []) && ForestLines(f) == lines
  {
    if CheckLines([], lines) == Next([]) {
      var f, rest := ReadForest([], [], lines);
      assert ForestLines(f) + [] == ForestLines(f);
      assert ForestLines(f) == lines;
    }
    forall f | Legal(f, []) && ForestLines(f) == lines ensures CheckLines([], lines) == Next([]) {
      LegalPasses(f, [], []);
    }
  }

  // ---- What an accepted fragment cannot reach --------------------------------------

  /** The first tokens of the lines around which there are only blocks of directives. */
  function Directives(f: Forest, inside: bool): seq<Token> {
    match f
    case End => []
    case Simple(line, rest) => (if inside then [line[0]] else []) + Directives(rest, inside)
    case Nested(header, body, _, rest) =>
      (if inside then [header[0]] else [])
      + Directives(body, inside && header[0].text in ["handle", "handle_path", "route"]) + Directives(rest, inside)
  }

  /** A line that says nothing about where files come from. */
  predicate LeavesRoot(line: Line) {
    line[0].quoted || line[0].text !in ["root", "fs", "import"]
  }

  /** A directive that serves neither another directory nor another server. */
  predicate StaysHere(t: Token) {
    !t.quoted && t.text !in ["root", "fs", "import", "reverse_proxy", "php_fastcgi", "forward_auth"]
  }

  lemma NamesStay(first: Token, ancestors: seq<string>)
    requires LegalName(first, ancestors)
    ensures first.quoted || first.text !in ["root", "fs", "import"]
    ensures AllContainers(ancestors) ==> StaysHere(first)
  {
  }

  lemma {:induction false} ForestReaches(f: Forest, ancestors: seq<string>)
    requires Legal(f, ancestors)
    ensures forall line <- ForestLines(f) :: LeavesRoot(line)
    ensures forall t <- Directives(f, AllContainers(ancestors)) :: StaysHere(t)
  {
    hide LegalName, StaysHere, NoTemplate, Braceless, OpensBlock;
    match f
    case End =>
    case Simple(line, rest) =>
      NamesStay(line[0], ancestors);
      ForestReaches(rest, ancestors);
    case Nested(header, body, close, rest) =>
      NamesStay(header[0], ancestors);
      ForestReaches(rest, ancestors);
      ForestReaches(body, ancestors + [header[0].text]);
      InnerContainers(ancestors, header[0].text);
  }

  lemma InnerContainers(ancestors: seq<string>, name: string)
    ensures AllContainers(ancestors + [name]) <==>
              AllContainers(ancestors) && name in ["handle", "handle_path", "route"]
  {
    var more := ancestors + [name];
    assert more[|ancestors|] == name;
    assert forall i :: 0 <= i < |ancestors| ==> more[i] == ancestors[i];
  }

  /**
   In an accepted fragment no line, however deep, says where files come from, and where a
   directive may stand there is none that serves another directory or another server.
   */
  lemma ReachesNothing(input: string)
    requires CheckOf(input).Accepted?
    ensures LexOf(input).Tokens?
    ensures exists f :: ForestLines(f) == Grouped(LexOf(input).tokens)
              && (forall line <- ForestLines(f) :: LeavesRoot(line)) && forall t <- Directives(f, true) :: StaysHere(t)
  {
    AcceptsExactlyTheGrammar(input);
    hide CheckOf, Grouped, LexOf, LeavesRoot, StaysHere;
    var f :| Legal(f, []) && ForestLines(f) == Grouped(LexOf(input).tokens);
    ForestReaches(f, []);
  }

  ghost predicate Occurs(s: string, pattern: string) {
    exists k :: 0 <= k <= |s| && pattern <= s[k..]
  }

  lemma IndexOfFinds(s: string, pattern: string)
    requires pattern != ""
    ensures IndexOf(s, pattern) < |s| <==> Occurs(s, pattern)
  {
    assert !(pattern <= s[|s|..]);
  }

  lemma PlaceholdersAgree(input: string)
    ensures PlaceholderLine(input, 0).Accepted? <==>
            !Occurs(input, "{$") && !Occurs(input, "{env.") && !Occurs(input, "{file.")
  {
    hide IndexOf, LineOf, Occurs;
    IndexOfFinds(input, "{$");
    IndexOfFinds(input, "{env.");
    IndexOfFinds(input, "{file.");
    assert FORBIDDEN_PLACEHOLDERS == ["{$", "{env.", "{file."];
    assert PlaceholderLine(input, 2).Accepted? <==> !Occurs(input, "{file.");
    assert PlaceholderLine(input, 1).Accepted? <==> !Occurs(input, "{env.") && PlaceholderLine(input, 2).Accepted?;
  }

  // ---- Where the check stops -----------------------------------------------------

  /** One closing line for every open block. */
  function Closing(depth: nat): seq<Line> {
    if depth == 0 then [] else [[Token("}", false, 1, 1)]] + Closing(depth - 1)
  }

  lemma {:induction false} ClosingPops(stack: seq<Block>)
    ensures CheckLines(stack, Closing(|stack|)) == Next([])
    decreases |stack|
  {
    if stack != [] {
      ClosingPops(stack[..|stack| - 1]);
      assert Closing(|stack|)[1..] == Closing(|stack| - 1);
    }
  }

  /** The lines read so far can still become a legal fragment. */
  ghost predicate Viable(lines: seq<Line>) {
    exists f, more :: Legal(f, []) && ForestLines(f) == lines + more
  }

  lemma ViableWhilePassing(lines: seq<Line>)
    ensures Viable(lines) <==> CheckLines([], lines).Next?
  {
    hide CheckLine, CheckLines;
    if CheckLines([], lines).Next? {
      var stack := CheckLines([], lines).stack;
      ClosingPops(stack);
      CheckAppend([], lines, Closing(|stack|));
      TreeExists(lines + Closing(|stack|));
    }
    if Viable(lines) {
      var f, more :| Legal(f, []) && ForestLines(f) == lines + more;
      LegalPasses(f, [], []);
      CheckAppend([], lines, more);
    }
  }

  /** Where a bad line is reported: at its start, but a quoted brace at that brace. */
  ghost predicate ReportedAt(line: Line, stop: Outcome) {
    && stop.Stop?
    && if stop.problem == QuotedBrace then
         QuotedBraceAt(line) < |line| && stop.line == line[QuotedBraceAt(line)].line
       else
         QuotedBraceAt(line) == |line| && stop.line == line[0].line
  }

  lemma StopsAtLine(stack: seq<Block>, line: Line)
    requires CheckLine(stack, line).Stop?
    ensures ReportedAt(line, CheckLine(stack, line))
  {
    hide InDirectives, BrowseAt, QuotedBraceAt;
  }

  /** The check rejects at the earliest line that no continuation could make legal. */
  lemma {:induction false} FirstBadLine(stack: seq<Block>, before: seq<Line>, lines: seq<Line>) returns (k: nat)
    requires CheckLines([], before) == Next(stack) && CheckLines(stack, lines).Stop?
    ensures k < |lines|
    ensures Viable(before + lines[..k]) && !Viable(before + lines[..k + 1])
    ensures ReportedAt(lines[k], CheckLines(stack, lines))
    decreases |lines|
  {
    hide CheckLine, Viable, ReportedAt;
    var first := CheckLine(stack, lines[0]);
    CheckAppend([], before, lines[..1]);
    if first.Stop? {
      StopsAtLine(stack, lines[0]);
      k := 0;
      assert before + lines[..0] == before;
      ViableWhilePassing(before);
      ViableWhilePassing(before + lines[..1]);
    } else {
      assert lines[..1][1..] == [] && lines == lines[..1] + lines[1..];
      k := FirstBadLine(first.stack, before + lines[..1], lines[1..]);
      assert before + lines[..1] + lines[1..][..k] == before + lines[..k + 1];
      assert before + lines[..1] + lines[1..][..k + 1] == before + lines[..k + 2];
      k := k + 1;
    }
  }
}
