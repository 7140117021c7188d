/**
 Rendering an accepted fragment (`indentFragment` in staticRouting.ts) gives a text that
 the check (`checkCaddyFragment`) accepts again, if its tokens are kept.
 */
module CaddyStable {
  import opened Text
  import opened CaddyLexer
  import opened CaddyLayout
  import opened CaddySplice
  import opened CaddyChecker
  import S = CaddySite

  // ---- The tokens --------------------------------------------------------------------

  /** A token behind CRLF normalisation. */
  function Plainer(t: Token): Token {
    t.(text := DropCr(t.text))
  }

  function PlainerAll(ts: seq<Token>): (r: seq<Token>)
    ensures |r| == |ts| && forall i :: 0 <= i < |r| ==> r[i] == Plainer(ts[i])
  {
    seq(|ts|, i requires 0 <= i < |ts| => Plainer(ts[i]))
  }

  function PlainerLine(line: Line): Line {
    PlainerAll(line)
  }

  function PlainerLines(lines: seq<Line>): (r: seq<Line>)
    ensures |r| == |lines| && forall i :: 0 <= i < |r| ==> r[i] == PlainerLine(lines[i])
  {
    seq(|lines|, i requires 0 <= i < |lines| => PlainerLine(lines[i]))
  }

  lemma RenderedLexes(f: string, indent: string)
    requires KeepsTokens(f) && IsIndent(indent)
    ensures var text := Join(IndentFragment(f, indent));
            LexOf(text).Tokens? && LexOf(text).tokens == PlainerAll(LexOf(f).tokens)
  {
    hide Run, Join, IndentFragment, PlainEnd, PlainLeads, DropCr, LexOf;
    SpliceTokens(START, f, indent, "");
    var lines := IndentFragment(f, indent);
    NoPrefix(lines);
    var e := Run(START, Join(lines));
    LexRead(Join(lines), e);
    forall i | 0 <= i < |LexOf(f).tokens| ensures Moved(f, 0, "")[i] == Plainer(LexOf(f).tokens[i]) {
      S.PadLines(DropCr(LexOf(f).tokens[i].text), "");
    }
    assert Moved(f, 0, "") == PlainerAll(LexOf(f).tokens);
  }

  lemma LexRead(s: string, e: State)
    requires e == Run(START, s) && e.Running? && !e.mode.Quote?
    ensures LexOf(s).Tokens? && LexOf(s).tokens == EndToken(e).tokens
  {
  }

  /** Positions are kept, so the tokens fall into the same lines. */
  lemma {:induction false} SameLines(ts: seq<Token>)
    ensures Grouped(PlainerAll(ts)) == PlainerLines(Grouped(ts))
    decreases |ts|
  {
    hide DropCr;
    if ts != [] {
      var init := ts[..|ts| - 1];
      SameLines(init);
      assert PlainerAll(ts)[..|ts| - 1] == PlainerAll(init);
      SameGrowth(Grouped(init), ts[|ts| - 1]);
    }
  }

  lemma SameGrowth(lines: seq<Line>, t: Token)
    ensures Grow(PlainerLines(lines), Plainer(t)) == PlainerLines(Grow(lines, t))
  {
    assert PlainerAll([t]) == [Plainer(t)];
    if lines != [] {
      var n := |lines| - 1;
      SameLast(lines, t);
      hide PlainerLine, Plainer;
      assert PlainerLines(lines)[..n] == PlainerLines(lines[..n]);
    }
    hide PlainerLine, Plainer;
  }

  lemma SameLast(lines: seq<Line>, t: Token)
    requires lines != []
    ensures var last: seq<Token> := lines[|lines| - 1]; var last': seq<Token> := PlainerLines(lines)[|lines| - 1];
      && |last'| == |last| && last'[|last| - 1].endLine == last[|last| - 1].endLine && Plainer(t).line == t.line
      && last' + [Plainer(t)] == PlainerAll(last + [t])
  {
    hide DropCr;
  }

  // ---- The grammar -------------------------------------------------------------------

  function PlainerForest(f: Forest): Forest {
    match f
    case End => End
    case Simple(line, rest) => Simple(PlainerLine(line), PlainerForest(rest))
    case Nested(header, body, close, rest) =>
      Nested(PlainerLine(header), PlainerForest(body), Plainer(close), PlainerForest(rest))
  }

  lemma PlainerThen(a: seq<Line>, b: seq<Line>)
    ensures PlainerLines(a + b) == PlainerLines(a) + PlainerLines(b)
  {
  }

  lemma {:induction false} PlainerForestLines(f: Forest)
    ensures ForestLines(PlainerForest(f)) == PlainerLines(ForestLines(f))
  {
    hide PlainerLine, Plainer, PlainerLines;
    match f
    case End =>
      NoLines();
    case Simple(line, rest) =>
      PlainerForestLines(rest);
      OneLine(line);
      PlainerThen([line], ForestLines(rest));
    case Nested(header, body, close, rest) =>
      PlainerForestLines(body);
      PlainerForestLines(rest);
      PlainerThen([header] + ForestLines(body) + [[close]], ForestLines(rest));
      PlainerThen([header] + ForestLines(body), [[close]]);
      PlainerThen([header], ForestLines(body));
      OneLine(header);
      CloseLine(close);
  }

  lemma NoLines()
    ensures PlainerLines([]) == []
  {
  }

  lemma OneLine(line: Line)
    ensures PlainerLines([line]) == [PlainerLine(line)]
  {
  }

  lemma CloseLine(close: Token)
    ensures PlainerLines([[close]]) == [[Plainer(close)]]
  {
    assert PlainerLine([close]) == [Plainer(close)];
  }

  /** Normalisation makes no text one of those the grammar names, and unmakes none. */
  lemma SameName(s: string, name: string)
    requires '\n' !in name
    ensures DropCr(s) == name <==> s == name
  {
    S.DropCrLines(s);
  }

  lemma SameMember(s: string, names: set<string>)
    requires forall name <- names :: '\n' !in name
    ensures DropCr(s) in names <==> s in names
  {
    S.DropCrLines(s);
  }

  lemma NamesPlain()
    ensures forall name <- ALLOWED_DIRECTIVES :: '\n' !in name
    ensures forall name <- CONTAINER_DIRECTIVES :: '\n' !in name
    ensures forall name <- FORBIDDEN_SUBDIRECTIVES :: '\n' !in name
  {
  }

  lemma SameMatcher(s: string)
    ensures ValidMatcher(DropCr(s)) <==> ValidMatcher(s)
  {
    S.DropCrLines(s);
    if '\n' in s {
      assert !NoLineFeed(s) && !NoLineFeed(DropCr(s));
      MatcherPlain(s);
      MatcherPlain(DropCr(s));
    }
  }

  predicate NoLineFeed(s: string) {
    '\n' !in s
  }

  lemma MatcherPlain(s: string)
    ensures ValidMatcher(s) ==> NoLineFeed(s)
  {
  }

  /** Names of blocks behind normalisation. */
  function PlainerNames(names: seq<string>): (r: seq<string>)
    ensures |r| == |names| && forall i :: 0 <= i < |r| ==> r[i] == DropCr(names[i])
  {
    seq(|names|, i requires 0 <= i < |names| => DropCr(names[i]))
  }

  lemma SameAncestors(ancestors: seq<string>)
    ensures AllContainers(PlainerNames(ancestors)) <==> AllContainers(ancestors)
  {
    hide DropCr;
    NamesPlain();
    forall i | 0 <= i < |ancestors|
      ensures PlainerNames(ancestors)[i] in CONTAINER_DIRECTIVES <==> ancestors[i] in CONTAINER_DIRECTIVES
    {
      SameMember(ancestors[i], CONTAINER_DIRECTIVES);
    }
  }

  lemma SameBraces(t: Token)
    ensures LoneBrace(Plainer(t)) <==> LoneBrace(t)
    ensures IsOpen(Plainer(t)) <==> IsOpen(t)
    ensures IsClose(Plainer(t)) <==> IsClose(t)
  {
    SameName(t.text, "{");
    SameName(t.text, "}");
  }

  lemma SameLegalName(first: Token, ancestors: seq<string>)
    ensures LegalName(Plainer(first), PlainerNames(ancestors)) <==> LegalName(first, ancestors)
  {
    hide AllContainers, DropCr, ValidMatcher;
    NamesPlain();
    SameAncestors(ancestors);
    SameMember(first.text, ALLOWED_DIRECTIVES);
    SameMember(first.text, FORBIDDEN_SUBDIRECTIVES);
    SameMatcher(first.text);
  }

  lemma SameTemplate(line: Line, ancestors: seq<string>)
    ensures NoTemplate(PlainerLine(line), PlainerNames(ancestors)) <==> NoTemplate(line, ancestors)
  {
    hide AllContainers, DropCr, IsOpen;
    SameAncestors(ancestors);
    forall i | 0 <= i < |line|
      ensures IsOpen(Plainer(line[i])) <==> IsOpen(line[i])
      ensures Plainer(line[i]).text == "browse" <==> line[i].text == "browse"
    {
      SameBraces(line[i]);
      SameName(line[i].text, "browse");
    }
    SameName(line[0].text, "file_server");
    if ancestors != [] { SameName(ancestors[|ancestors| - 1], "file_server"); }
  }

  lemma SameBraceless(line: seq<Token>)
    ensures Braceless(PlainerAll(line)) <==> Braceless(line)
  {
    hide DropCr, LoneBrace;
    forall i | 0 <= i < |line| ensures LoneBrace(PlainerAll(line)[i]) <==> LoneBrace(line[i]) { SameBraces(line[i]); }
  }

  lemma SameHeader(line: Line)
    ensures OpensBlock(PlainerLine(line)) <==> OpensBlock(line)
  {
    hide DropCr, IsOpen, Braceless;
    SameBraces(line[|line| - 1]);
    SameBraceless(line[..|line| - 1]);
    assert PlainerLine(line)[..|line| - 1] == PlainerAll(line[..|line| - 1]);
  }

  lemma SameLegalLine(line: Line, ancestors: seq<string>)
    ensures LegalLine(PlainerLine(line), PlainerNames(ancestors)) <==> LegalLine(line, ancestors)
  {
    hide DropCr, LegalName, NoTemplate;
    SameLegalName(line[0], ancestors);
    SameTemplate(line, ancestors);
  }

  /** A legal forest stays legal. */
  lemma {:induction false} PlainerLegal(f: Forest, ancestors: seq<string>)
    requires Legal(f, ancestors)
    ensures Legal(PlainerForest(f), PlainerNames(ancestors))
  {
    hide DropCr, LegalLine, Braceless, OpensBlock, IsClose;
    match f
    case End =>
    case Simple(line, rest) =>
      SameBraceless(line);
      SameLegalLine(line, ancestors);
      PlainerLegal(rest, ancestors);
    case Nested(header, body, close, rest) =>
      SameHeader(header);
      SameLegalLine(header, ancestors);
      SameBraces(close);
      PlainerLegal(body, ancestors + [header[0].text]);
      assert PlainerNames(ancestors + [header[0].text]) == PlainerNames(ancestors) + [PlainerLine(header)[0].text];
      PlainerLegal(rest, ancestors);
  }

  // ---- The text ----------------------------------------------------------------------

  /** A pattern that no line feed and no space is part of, as the forbidden placeholders are. */
  predicate Solid(pattern: string) {
    pattern != "" && '\n' !in pattern && !IsSpace(pattern[0])
  }

  lemma OccursLater(s: string, k: nat, pattern: string)
    requires k <= |s| && Occurs(s[k..], pattern)
    ensures Occurs(s, pattern)
  {
    var j :| 0 <= j <= |s[k..]| && pattern <= s[k..][j..];
    assert s[k..][j..] == s[k + j..];
  }

  lemma OccursBefore(a: string, b: string, pattern: string)
    requires Occurs(a, pattern)
    ensures Occurs(a + b, pattern)
  {
    var j :| 0 <= j <= |a| && pattern <= a[j..];
    assert (a + b)[j..] == a[j..] + b;
  }

  lemma NotInIndent(indent: string, s: string, k: nat, pattern: string)
    requires Solid(pattern) && IsIndent(indent)
    ensures k < |indent| ==> !(pattern <= (indent + s)[k..])
  {
    if k < |indent| { assert (indent + s)[k..][0] == indent[k]; }
  }

  lemma OccursBehindIndent(indent: string, s: string, pattern: string)
    requires Solid(pattern) && IsIndent(indent) && Occurs(indent + s, pattern)
    ensures Occurs(s, pattern)
  {
    var k :| 0 <= k <= |indent + s| && pattern <= (indent + s)[k..];
    NotInIndent(indent, s, k, pattern);
    assert (indent + s)[k..] == s[k - |indent|..];
  }

  lemma NotAcrossCrLf(f: string, pattern: string)
    requires pattern != "" && '\n' !in pattern
    ensures |f| >= 2 && f[0] == '\r' && f[1] == '\n' ==> !(pattern <= DropCr(f))
  {
    assert pattern[0] in pattern;
  }

  lemma {:induction false} PrefixUndropped(f: string, pattern: string)
    requires '\n' !in pattern && pattern <= DropCr(f)
    ensures pattern <= f
    decreases |pattern|
  {
    if pattern != "" {
      NotAcrossCrLf(f, pattern);
      assert DropCr(f) == [f[0]] + DropCr(f[1..]);
      assert pattern[1..] <= DropCr(f)[1..];
      PrefixUndropped(f[1..], pattern[1..]);
      assert pattern == [pattern[0]] + pattern[1..];
    }
  }

  lemma {:induction false} OccursUndropped(f: string, pattern: string)
    requires '\n' !in pattern && Occurs(DropCr(f), pattern)
    ensures Occurs(f, pattern)
    decreases |f|
  {
    var k :| 0 <= k <= |DropCr(f)| && pattern <= DropCr(f)[k..];
    if k == 0 {
      assert DropCr(f)[0..] == DropCr(f) && f[0..] == f;
      PrefixUndropped(f, pattern);
    } else {
      var n := if |f| >= 2 && f[0] == '\r' && f[1] == '\n' then 2 else 1;
      assert DropCr(f)[1..] == DropCr(f[n..]);
      assert DropCr(f)[k..] == DropCr(f[n..])[k - 1..];
      OccursUndropped(f[n..], pattern);
      OccursLater(f, n, pattern);
    }
  }

  /** A pattern without line feeds occurs in a text exactly if it occurs in one of its lines. */
  lemma {:induction false} OccursInLines(lines: seq<string>, pattern: string)
    requires lines != [] && Solid(pattern)
    ensures Occurs(Join(lines), pattern) <==> exists i :: 0 <= i < |lines| && Occurs(lines[i], pattern)
    decreases |lines|
  {
    hide Occurs;
    if |lines| > 1 {
      OccursInLines(lines[1..], pattern);
      OccursInTwo(lines[0], Join(lines[1..]), pattern);
      if i :| 0 <= i < |lines| && Occurs(lines[i], pattern) {
        assert i > 0 ==> lines[i] == lines[1..][i - 1];
      }
    }
  }

  lemma NotAcrossLines(a: string, b: string, k: nat, pattern: string)
    requires '\n' !in pattern && k <= |a| && k + |pattern| > |a|
    ensures !(pattern <= (a + ['\n'] + b)[k..])
  {
    assert pattern[|a| - k] in pattern && (a + ['\n'] + b)[k..][|a| - k] == '\n';
  }

  lemma OccursInTwo(a: string, b: string, pattern: string)
    requires Solid(pattern)
    ensures Occurs(a + ['\n'] + b, pattern) <==> Occurs(a, pattern) || Occurs(b, pattern)
  {
    hide IsSpace;
    var s := a + ['\n'] + b;
    assert s[|a| + 1..] == b && s == a + (['\n'] + b);
    if Occurs(a, pattern) { OccursBefore(a, ['\n'] + b, pattern); }
    if Occurs(b, pattern) { OccursLater(s, |a| + 1, pattern); }
    if Occurs(s, pattern) {
      var k :| 0 <= k <= |s| && pattern <= s[k..];
      if k > |a| {
        assert s[k..] == b[k - |a| - 1..];
      } else {
        assert s[k..] == a[k..] + (['\n'] + b);
        assert k + |pattern| <= |a| by { if k + |pattern| > |a| { NotAcrossLines(a, b, k, pattern); } }
        assert pattern <= a[k..];
      }
    }
  }

  /** What the check looks for is in no rendered line, if it is not in the fragment. */
  lemma RenderedOccurs(f: string, indent: string, pattern: string)
    requires LexOf(f).Tokens? && IsIndent(indent) && Solid(pattern)
    requires Occurs(Join(IndentFragment(f, indent)), pattern)
    ensures Occurs(f, pattern)
  {
    hide Occurs, LexOf, Join, DropCr, TrimEnd, Solid, TrailingSpace, Split, IndentLines, IsIndent;
    var lines, rendered := Split(TrimmedText(f)), IndentFragment(f, indent);
    OccursInLines(rendered, pattern);
    var i :| 0 <= i < |rendered| && Occurs(rendered[i], pattern);
    RenderedAt(lines, 0, LexOf(f).continuation, indent, i);
    LineOccurs(lines[i], i, LexOf(f).continuation, indent, pattern);
    OccursInLines(lines, pattern);
    JoinSplit(TrimmedText(f));
    RestAndTrail(DropCr(f));
    OccursBefore(TrimmedText(f), TrailingSpace(DropCr(f)), pattern);
    assert '\n' !in pattern by { SolidLine(pattern); }
    OccursUndropped(f, pattern);
  }

  lemma SolidLine(pattern: string)
    requires Solid(pattern)
    ensures '\n' !in pattern
  {
  }

  lemma LineOccurs(line: string, i: nat, continuation: set<nat>, indent: string, pattern: string)
    requires IsIndent(indent) && Solid(pattern) && Occurs(IndentLine(line, i, continuation, indent), pattern)
    ensures Occurs(line, pattern)
  {
    hide Occurs, Solid, IsIndent, Trim, TrimStart;
    if !(i in continuation || Trim(line) == "") {
      OccursBehindIndent(indent, TrimStart(line), pattern);
      TrimStartDrops(line);
      OccursLater(line, |line| - |TrimStart(line)|, pattern);
    }
  }

  lemma {:induction false} RenderedAt(lines: seq<string>, i: nat, continuation: set<nat>, indent: string, k: nat)
    requires k < |lines|
    ensures IndentLines(lines, i, continuation, indent)[k] == IndentLine(lines[k], i + k, continuation, indent)
    decreases |lines|
  {
    if k > 0 { RenderedAt(lines[1..], i + 1, continuation, indent, k - 1); }
  }

  // ---- Blank texts -------------------------------------------------------------------

  lemma {:induction false} JoinBlank(lines: seq<string>)
    requires lines != []
    ensures AllSpace(Join(lines)) <==> forall i :: 0 <= i < |lines| ==> AllSpace(lines[i])
    decreases |lines|
  {
    hide AllSpace;
    if |lines| > 1 {
      JoinBlank(lines[1..]);
      TwoBlank(lines[0], Join(lines[1..]));
      if AllSpace(Join(lines)) {
        forall i | 0 <= i < |lines| ensures AllSpace(lines[i]) { assert i > 0 ==> lines[i] == lines[1..][i - 1]; }
      }
      if forall i :: 0 <= i < |lines| ==> AllSpace(lines[i]) {
        forall i | 0 <= i < |lines[1..]| ensures AllSpace(lines[1..][i]) { assert lines[1..][i] == lines[i + 1]; }
      }
    }
  }

  lemma TwoBlank(a: string, b: string)
    ensures AllSpace(a + ['\n'] + b) <==> AllSpace(a) && AllSpace(b)
  {
    var s := a + ['\n'] + b;
    assert forall c <- a :: c in s;
    assert forall c <- b :: c in s;
  }

  lemma {:induction false} DropCrBlank(s: string)
    requires AllSpace(DropCr(s))
    ensures AllSpace(s)
    decreases |s|
  {
    if s != "" {
      var n := if |s| >= 2 && s[0] == '\r' && s[1] == '\n' then 2 else 1;
      assert DropCr(s)[1..] == DropCr(s[n..]);
      assert forall c <- DropCr(s)[1..] :: c in DropCr(s);
      DropCrBlank(s[n..]);
      assert DropCr(s)[0] in DropCr(s);
      assert s == s[..n] + s[n..];
    }
  }

  /** A fragment that is not blank is not rendered blank. */
  lemma RenderedNotBlank(f: string, indent: string)
    requires LexOf(f).Tokens? && AllSpace(Join(IndentFragment(f, indent)))
    ensures AllSpace(f)
  {
    hide AllSpace, LexOf, Join, DropCr, TrimEnd, TrailingSpace, Split, IndentLines;
    var lines, rendered := Split(TrimmedText(f)), IndentFragment(f, indent);
    JoinBlank(rendered);
    forall i | 0 <= i < |lines| ensures AllSpace(lines[i]) {
      RenderedAt(lines, 0, LexOf(f).continuation, indent, i);
      LineBlank(lines[i], i, LexOf(f).continuation, indent);
    }
    JoinBlank(lines);
    JoinSplit(TrimmedText(f));
    RestAndTrail(DropCr(f));
    BlankThen(TrimmedText(f), TrailingSpace(DropCr(f)));
    DropCrBlank(f);
  }

  lemma BlankThen(a: string, b: string)
    requires AllSpace(a) && AllSpace(b)
    ensures AllSpace(a + b)
  {
  }

  lemma LineBlank(line: string, i: nat, continuation: set<nat>, indent: string)
    requires AllSpace(IndentLine(line, i, continuation, indent))
    ensures AllSpace(line)
  {
    hide IsSpace, TrimStart, LeadingSpace, Trim;
    TrimBlank(line);
    LeadAndRest(line);
    assert forall c <- TrimStart(line) :: c in indent + TrimStart(line);
  }

  // ---- The claim ---------------------------------------------------------------------

  /**
   A fragment that is accepted and keeps its tokens is accepted again as it is rendered,
   under any indentation: what is served has passed the check in the form it is served in.
   */
  lemma RenderedAccepted(f: string, indent: string)
    requires CheckOf(f).Accepted? && KeepsTokens(f) && IsIndent(indent)
    ensures CheckOf(Join(IndentFragment(f, indent))).Accepted?
  {
    hide LexOf, CheckOf, Join, IndentFragment, PlainEnd, PlainLeads, Legal, ForestLines, Grouped, Occurs, AllSpace;
    hide PlainerForest, PlainerLines, PlainerAll;
    var text := Join(IndentFragment(f, indent));
    AcceptsExactlyTheGrammar(f);
    AcceptsExactlyTheGrammar(text);
    RenderedLexes(f, indent);
    var forest :| Legal(forest, []) && ForestLines(forest) == Grouped(LexOf(f).tokens);
    PlainerLegal(forest, []);
    assert PlainerNames([]) == [];
    PlainerForestLines(forest);
    SameLines(LexOf(f).tokens);
    if AllSpace(text) { RenderedNotBlank(f, indent); }
    PlaceholdersSolid();
    if Occurs(text, "{$") { RenderedOccurs(f, indent, "{$"); }
    if Occurs(text, "{env.") { RenderedOccurs(f, indent, "{env."); }
    if Occurs(text, "{file.") { RenderedOccurs(f, indent, "{file."); }
  }

  lemma PlaceholdersSolid()
    ensures Solid("{$") && Solid("{env.") && Solid("{file.")
  {
  }
}
