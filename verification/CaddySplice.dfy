/**
 Re-indenting a fragment (`indentFragment` in staticRouting.ts) and splicing it into a
 larger file: exactly when its tokens are kept.
 */
module CaddySplice {
  import opened Text
  import opened CaddyLexer
  import opened CaddyLayout

  /** `text` with `pad` inserted after every line feed. */
  function Pad(text: string, pad: string): string {
    if text == "" then ""
    else Pad(text[..|text| - 1], pad) + [text[|text| - 1]] + if text[|text| - 1] == '\n' then pad else ""
  }

  // ---- The source's function ---------------------------------------------------

  function IndentLine(line: string, i: nat, continuation: set<nat>, indent: string): string {
    if i in continuation || Trim(line) == "" then line else indent + TrimStart(line)
  }

  function IndentLines(lines: seq<string>, i: nat, continuation: set<nat>, indent: string): (r: seq<string>)
    ensures |r| == |lines|
  {
    if lines == [] then []
    else [IndentLine(lines[0], i, continuation, indent)] + IndentLines(lines[1..], i + 1, continuation, indent)
  }

  /** Indents a fragment that tokenizes, leaving lines inside multi-line quotes alone. */
  function IndentFragment(input: string, indent: string): (r: seq<string>)
    requires LexOf(input).Tokens?
    ensures |r| >= 1
  {
    IndentLines(Split(TrimmedText(input)), 0, LexOf(input).continuation, indent)
  }

  /** Lines written one level deeper, as the root route's handler does. */
  function Prefixed(pad: string, lines: seq<string>): (r: seq<string>)
    ensures |r| == |lines|
    ensures forall i :: 0 <= i < |r| ==> r[i] == pad + lines[i]
  {
    seq(|lines|, i requires 0 <= i < |lines| => pad + lines[i])
  }

  lemma NoPrefix(lines: seq<string>)
    ensures Prefixed("", lines) == lines
  {
    forall i | 0 <= i < |lines| ensures Prefixed("", lines)[i] == lines[i] { assert "" + lines[i] == lines[i]; }
  }

  // ---- When it keeps the tokens -------------------------------------------------

  /** White space taken off the front of a line is white space to the tokenizer. */
  predicate PlainLead(line: string, i: nat, continuation: set<nat>) {
    i in continuation || Trim(line) == "" || forall c <- LeadingSpace(line) :: IsLexSpace(c)
  }

  predicate PlainLeads(lines: seq<string>, i: nat, continuation: set<nat>) {
    forall k :: 0 <= k < |lines| ==> PlainLead(lines[k], i + k, continuation)
  }

  /** All white space that `indentFragment` takes off a fragment that tokenizes is nothing to the tokenizer. */
  predicate KeepsTokens(f: string) {
    LexOf(f).Tokens? && PlainEnd(f) && PlainLeads(Split(TrimmedText(f)), 0, LexOf(f).continuation)
  }

  // ---- Lines -------------------------------------------------------------------

  /** Later lines never change which earlier lines are continuations. */
  lemma {:induction false} ContinuationsLater(st: State, s: string)
    requires Run(st, s).Running?
    ensures st.Running? && Run(st, s).line >= st.line
    ensures forall k :: k < st.line ==> (k in Run(st, s).continuation <==> k in st.continuation)
    decreases |s|
  {
    if s == "" || st.Failed? {
    } else if Escapes(st.mode, s[0], Peek(s)) {
      ContinuationsLater(Escaped(st), s[2..]);
    } else {
      ContinuationsLater(Step(st, s[0], Peek(s)), s[1..]);
    }
  }

  /** Without a line feed the line number stays and no continuation is added. */
  lemma {:induction false} OneLine(st: State, s: string)
    requires '\n' !in s && Run(st, s).Running?
    ensures st.Running? && Run(st, s).line == st.line && Run(st, s).continuation == st.continuation
    decreases |s|
  {
    if s == "" || st.Failed? {
    } else if Escapes(st.mode, s[0], Peek(s)) {
      OneLine(Escaped(st), s[2..]);
    } else {
      OneLine(Step(st, s[0], Peek(s)), s[1..]);
    }
  }

  /** A state at the start of a line: its continuation mark says whether a quote is open. */
  ghost predicate LineStart(st: State) {
    st.Running? ==>
      && st.line >= 1
      && (st.mode.Between? || st.mode.Quote?)
      && (st.line - 1 in st.continuation <==> st.mode.Quote?)
      && (forall k <- st.continuation :: k < st.line)
  }

  lemma NewlineStarts(st: State, line: string)
    requires LineStart(st) && '\n' !in line
    ensures LineStart(Step(Run(st, line), '\n', ""))
    ensures var e := Step(Run(st, line), '\n', ""); e.Running? ==> st.Running? && e.line == st.line + 1
  {
    if Run(st, line).Running? { OneLine(st, line); }
  }

  /** Lines moved down and deeper by `pad`. */
  ghost function Deeper(lines: nat, before: seq<Token>, pad: string): Move {
    Move(lines, before, s => Pad(s, pad), false)
  }

  lemma DeeperPlain(lines: nat, before: seq<Token>, pad: string)
    ensures Deeper(lines, before, pad).Plain()
  {
    forall s: string, c: char | c != '\n' ensures Pad(s + [c], pad) == Pad(s, pad) + [c] {
      assert (s + [c])[..|s|] == s;
    }
  }

  /** A line feed followed by the deeper indentation keeps the runs alike. */
  lemma NewlineLike(st: State, st': State, m: Move, pad: string)
    requires m == Deeper(m.lines, m.before, pad) && Like(st, st', m) && IsIndent(pad)
    ensures Like(Step(st, '\n', ""), Run(Step(st', '\n', ""), pad), m)
  {
    if st.Running? {
      EndTokenLike(st, st', m);
      var e, e' := Step(st, '\n', ""), Step(st', '\n', "");
      if st.mode.Quote? {
        assert (st.mode.text + ['\n'])[..|st.mode.text|] == st.mode.text;
        RunQuotedIndent(e', pad);
        assert st'.mode.text + ['\n'] + pad == Pad(st.mode.text + ['\n'], pad);
      } else {
        RunIndent(e', pad);
      }
    }
  }

  lemma {:induction false} RunQuotedIndent(st: State, w: string)
    requires IsIndent(w) && st.Running? && st.mode.Quote?
    ensures Run(st, w) == st.(mode := Quote(st.mode.mark, st.mode.text + w, st.mode.start))
    decreases |w|
  {
    if w == "" {
      assert st.mode.text + w == st.mode.text;
    } else {
      var grown := st.(mode := Quote(st.mode.mark, st.mode.text + [w[0]], st.mode.start));
      RunQuotedIndent(grown, w[1..]);
      assert st.mode.text + w == st.mode.text + [w[0]] + w[1..];
    }
  }

  lemma BetweenLike(st: State, st': State, m: Move)
    requires Like(st, st', m) && st.Running? && st.mode.Between?
    ensures st'.Running? && st'.mode.Between?
  {
  }

  /** Every line but a continuation may change its indentation. */
  lemma LineLike(st: State, st': State, line: string, indent: string, m: Move)
    requires Like(st, st', m) && m.Plain() && LineStart(st) && st.Running?
    requires '\n' !in line && PlainLead(line, st.line - 1, st.continuation) && IsIndent(indent)
    ensures Like(Run(st, line), Run(st', IndentLine(line, st.line - 1, st.continuation, indent)), m)
  {
    hide Move.Plain, Run, Like, IsIndent, TrimStart, Trim, LeadingSpace;
    if st.mode.Quote? || Trim(line) == "" {
      RunLike(st, st', line, m);
    } else {
      var bare := TrimStart(line);
      PlainLeadIndent(line);
      BetweenLike(st, st', m);
      SkipIndent(st, LeadingSpace(line), bare);
      SkipIndent(st', indent, bare);
      RunLike(st, st', bare, m);
    }
  }

  lemma PlainLeadIndent(line: string)
    requires '\n' !in line && forall c <- LeadingSpace(line) :: IsLexSpace(c)
    ensures IsIndent(LeadingSpace(line)) && line == LeadingSpace(line) + TrimStart(line) && '\n' !in TrimStart(line)
  {
    hide TrimStart, IsLexSpace, IsSpace, LeadingSpace;
    LeadAndRest(line);
    var w := LeadingSpace(line);
    forall i | 0 <= i < |w| ensures IsLexSpace(w[i]) && w[i] != '\n' { assert w[i] in line && w[i] in w; }
  }

  /** One line and its line feed, in both texts. */
  lemma LineStepLike(st: State, st': State, line: string, indent: string, m: Move, pad: string)
    requires LineStart(st) && st.Running? && m == Deeper(m.lines, m.before, pad) && Like(st, Run(st', pad), m)
    requires '\n' !in line && PlainLead(line, st.line - 1, st.continuation) && IsIndent(indent) && IsIndent(pad)
    ensures var out := pad + IndentLine(line, st.line - 1, st.continuation, indent);
            var next, next' := Step(Run(st, line), '\n', ""), Step(Run(st', out), '\n', "");
            && Like(Run(st, line), Run(st', out), m)
            && Like(next, Run(next', pad), m)
            && LineStart(next)
            && (next.Running? ==> next.line == st.line + 1)
  {
    var first := IndentLine(line, st.line - 1, st.continuation, indent);
    DeeperPlain(m.lines, m.before, pad);
    LineLike(st, Run(st', pad), line, indent, m);
    RunBehindSpaces(st', pad, first);
    NewlineLike(Run(st, line), Run(st', pad + first), m, pad);
    NewlineStarts(st, line);
  }

  /** The text that `lines`, the rest of a fragment from line `i` on, is rendered as. */
  ghost function Rendered(lines: seq<string>, i: nat, continuation: set<nat>, indent: string, pad: string): string {
    Join(Prefixed(pad, IndentLines(lines, i, continuation, indent)))
  }

  lemma RenderedLine(lines: seq<string>, i: nat, continuation: set<nat>, indent: string, pad: string)
    requires lines != []
    ensures var first := pad + IndentLine(lines[0], i, continuation, indent);
            Rendered(lines, i, continuation, indent, pad) ==
            if |lines| == 1 then first else first + "\n" + Rendered(lines[1..], i + 1, continuation, indent, pad)
  {
    var out := Prefixed(pad, IndentLines(lines, i, continuation, indent));
    assert out[1..] == Prefixed(pad, IndentLines(lines[1..], i + 1, continuation, indent));
  }

  /** Whether line `i` continues a quote is settled when it starts. */
  lemma ContinuationKnown(st: State, rest: string, i: nat)
    requires LineStart(st) && Run(st, rest).Running? && st.Running? && st.line == i + 1
    ensures i in Run(st, rest).continuation <==> i in st.continuation
  {
    ContinuationsLater(st, rest);
  }

  /** What the induction over lines starts from: `st` starts line `i` of a text that reads to its end. */
  ghost predicate AtLine(st: State, lines: seq<string>, i: nat) {
    && lines != []
    && LineStart(st) && st.Running? && st.line == i + 1
    && Run(st, Join(lines)).Running?
    && forall k :: 0 <= k < |lines| ==> '\n' !in lines[k]
  }

  lemma AtNextLine(st: State, lines: seq<string>, i: nat)
    requires AtLine(st, lines, i) && |lines| > 1
    ensures var next := Step(Run(st, lines[0]), '\n', "");
            && Run(st, Join(lines)) == Run(next, Join(lines[1..]))
            && AtLine(next, lines[1..], i + 1)
  {
    RunLine(st, lines[0], Join(lines[1..]));
    RunFailed(Step(Run(st, lines[0]), '\n', ""), Join(lines[1..]));
    NewlineStarts(st, lines[0]);
  }

  /** The same, line after line. */
  lemma {:induction false} LinesLike(
      st: State, st': State, lines: seq<string>, i: nat, continuation: set<nat>, indent: string, m: Move, pad: string)
    requires AtLine(st, lines, i) && continuation == Run(st, Join(lines)).continuation
    requires PlainLeads(lines, i, continuation)
    requires IsIndent(indent) && IsIndent(pad) && m == Deeper(m.lines, m.before, pad)
    requires Like(st, Run(st', pad), m)
    ensures Like(Run(st, Join(lines)), Run(st', Rendered(lines, i, continuation, indent, pad)), m)
    decreases |lines|
  {
    hide Run, Step, Rendered, Deeper;
    ContinuationKnown(st, Join(lines), i);
    assert PlainLead(lines[0], i + 0, continuation);
    LineStepLike(st, st', lines[0], indent, m, pad);
    RenderedLine(lines, i, continuation, indent, pad);
    var first := pad + IndentLine(lines[0], i, continuation, indent);
    assert first == pad + IndentLine(lines[0], i, st.continuation, indent);
    if |lines| > 1 {
      AtNextLine(st, lines, i);
      RunLine(st', first, Rendered(lines[1..], i + 1, continuation, indent, pad));
      LinesLike(Step(Run(st, lines[0]), '\n', ""), Step(Run(st', first), '\n', ""),
                lines[1..], i + 1, continuation, indent, m, pad);
    }
  }

  /** The tokens of `f`, `lines` lines further down, with `pad` after every line feed of a text. */
  function Moved(f: string, lines: nat, pad: string): (r: seq<Token>)
    requires LexOf(f).Tokens?
    ensures |r| == |LexOf(f).tokens|
    ensures forall i :: 0 <= i < |r| ==> var t := LexOf(f).tokens[i];
              r[i] == Token(Pad(DropCr(t.text), pad), t.quoted, t.line + lines, t.endLine + lines)
  {
    var ts := LexOf(f).tokens;
    seq(|ts|, i requires 0 <= i < |ts| =>
      Token(Pad(DropCr(ts[i].text), pad), ts[i].quoted, ts[i].line + lines, ts[i].endLine + lines))
  }

  // ---- Where it does not keep them ----------------------------------------------

  /** `ts'` cannot go on as `ts` moved: its token at the same place is missing or clashes. */
  ghost predicate Clash(t: Token, t': Token, lines: nat) {
    && !t.quoted && t.text != "" && IsOddSpace(t.text[0])
    && (t'.quoted || t'.line > t.line + lines || (t'.text != "" && !IsSpace(t'.text[0])))
  }

  ghost predicate Off(ts: seq<Token>, ts': seq<Token>, m: Move) {
    exists k :: 0 <= k < |ts| && (|m.before| + k < |ts'| ==> Clash(ts[k], ts'[|m.before| + k], m.lines))
  }

  /** Between tokens, the next token is on no earlier line, and on a later one behind a comment. */
  lemma {:induction false} NextTokenLine(st: State, s: string)
    requires st.Running? && (st.mode.Between? || st.mode.Comment?)
    requires Run(st, s).Running? && !Run(st, s).mode.Quote?
    ensures var ts, k := EndToken(Run(st, s)).tokens, |st.tokens|;
            k < |ts| ==> ts[k].line >= st.line + if st.mode.Comment? then 1 else 0
    decreases |s|
  {
    if s != "" {
      var next := Step(st, s[0], Peek(s));
      assert Run(st, s) == Run(next, s[1..]);
      if next.Running? {
        if next.mode.Between? || next.mode.Comment? {
          NextTokenLine(next, s[1..]);
        } else {
          TokenInProgress(next, s[1..]);
        }
      }
    }
  }

  /** A line that starts with odd white space starts, to the tokenizer, with a word that has it. */
  lemma {:induction false} OddHead(st: State, line: string, rest: string)
    requires st.Running? && st.mode.Between?
    requires exists c <- LeadingSpace(line) :: !IsLexSpace(c)
    requires '\n' !in line
    requires Run(st, line + rest).Running? && !Run(st, line + rest).mode.Quote?
    ensures var ts, k := EndToken(Run(st, line + rest)).tokens, |st.tokens|;
            k < |ts| && !ts[k].quoted && ts[k].line == st.line && ts[k].text != "" && IsOddSpace(ts[k].text[0])
    decreases |line|
  {
    hide IsLexSpace, IsSpace;
    var s := line + rest;
    assert s[0] == line[0] && s[1..] == line[1..] + rest;
    var next := Step(st, s[0], Peek(s));
    RunStep(st, s);
    if IsLexSpace(line[0]) {
      SpaceStep(st, line[0], Peek(s));
      assert LeadingSpace(line) == [line[0]] + LeadingSpace(line[1..]);
      OddHead(st, line[1..], rest);
    } else {
      OddPeek(st, line[0], Peek(s));
      TokenInProgress(next, s[1..]);
    }
  }

  lemma RunStep(st: State, s: string)
    requires st.Running? && st.mode.Between? && s != ""
    ensures Run(st, s) == Run(Step(st, s[0], Peek(s)), s[1..])
  {
  }

  lemma SpaceStep(st: State, c: char, next: string)
    requires st.Running? && st.mode.Between? && IsLexSpace(c) && c != '\n'
    ensures Step(st, c, next) == st
  {
  }

  lemma OddPeek(st: State, c: char, next: string)
    requires st.Running? && st.mode.Between? && IsOddSpace(c)
    ensures Step(st, c, next) == Step(st, c, "") == st.(mode := Word([c], st.line))
  {
    assert "" + [c] == [c];
  }

  /** What is left of the line starts with no white space at all, or with no word. */
  lemma BareHead(st: State, bare: string, rest: string)
    requires st.Running? && st.mode.Between? && bare != "" && !IsSpace(bare[0])
    requires Run(st, bare + rest).Running? && !Run(st, bare + rest).mode.Quote?
    ensures var ts, k := EndToken(Run(st, bare + rest)).tokens, |st.tokens|;
            k < |ts| ==> ts[k].quoted || ts[k].line > st.line || (ts[k].text != "" && !IsSpace(ts[k].text[0]))
  {
    var s := bare + rest;
    var next := Step(st, s[0], Peek(s));
    assert Run(st, s) == Run(next, s[1..]) && s[0] == bare[0];
    if next.Running? {
      if next.mode.Comment? {
        NextTokenLine(next, s[1..]);
      } else {
        assert next.mode.Quote? || next.mode.text == [bare[0]] by { assert "" + [bare[0]] == [bare[0]]; }
        TokenInProgress(next, s[1..]);
      }
    }
  }

  /** At the first line whose leading white space is not plain the tokens part. */
  lemma OddLine(st: State, st': State, line: string, rest: string, indent: string, rest': string, m: Move)
    requires Like(st, st', m) && LineStart(st) && st.Running? && '\n' !in line && IsIndent(indent)
    requires !PlainLead(line, st.line - 1, st.continuation)
    requires var e := Run(st, line + rest); e.Running? && !e.mode.Quote?
    requires var e' := Run(st', IndentLine(line, st.line - 1, st.continuation, indent) + rest');
             e'.Running? && !e'.mode.Quote?
    ensures Off(EndToken(Run(st, line + rest)).tokens,
                EndToken(Run(st', IndentLine(line, st.line - 1, st.continuation, indent) + rest')).tokens, m)
  {
    hide Run, IsIndent, TrimStart, Trim, LeadingSpace, IsSpace, IsLexSpace;
    var bare := TrimStart(line);
    BetweenLike(st, st', m);
    OddHead(st, line, rest);
    TrimStartDrops(line);
    TrimBlank(line);
    LeadAndRest(line);
    assert bare == "" ==> line == LeadingSpace(line);
    assert indent + bare + rest' == indent + (bare + rest');
    SkipIndent(st', indent, bare + rest');
    BareHead(st', bare, rest');
    var ts, ts', k := EndToken(Run(st, line + rest)).tokens, EndToken(Run(st', bare + rest')).tokens, |st.tokens|;
    assert |st'.tokens| == |m.before| + k && st'.line == st.line + m.lines;
    assert |m.before| + k < |ts'| ==> Clash(ts[k], ts'[|m.before| + k], m.lines);
  }

  /** Line after line up to that one. */
  lemma {:induction false} LinesOff(
      st: State, st': State, lines: seq<string>, i: nat, continuation: set<nat>, indent: string, m: Move, pad: string)
    requires AtLine(st, lines, i) && continuation == Run(st, Join(lines)).continuation
    requires !PlainLeads(lines, i, continuation) && !Run(st, Join(lines)).mode.Quote?
    requires IsIndent(indent) && IsIndent(pad) && m == Deeper(m.lines, m.before, pad)
    requires Like(st, Run(st', pad), m)
    requires var e' := Run(st', Rendered(lines, i, continuation, indent, pad)); e'.Running? && !e'.mode.Quote?
    ensures Off(EndToken(Run(st, Join(lines))).tokens,
                EndToken(Run(st', Rendered(lines, i, continuation, indent, pad))).tokens, m)
    decreases |lines|
  {
    hide Run, Step, Rendered, Deeper, PlainLead, Off, Like;
    ContinuationKnown(st, Join(lines), i);
    RenderedLine(lines, i, continuation, indent, pad);
    var first := IndentLine(lines[0], i, continuation, indent);
    assert first == IndentLine(lines[0], i, st.continuation, indent);
    SameLead(lines[0], i, continuation, st.continuation);
    if !PlainLead(lines[0], i, continuation) {
      var rest := if |lines| == 1 then "" else "\n" + Join(lines[1..]);
      var rest' := if |lines| == 1 then "" else "\n" + Rendered(lines[1..], i + 1, continuation, indent, pad);
      assert Join(lines) == lines[0] + rest;
      assert Rendered(lines, i, continuation, indent, pad) == pad + (first + rest');
      IndentIsSpace(pad);
      RunBehindSpaces(st', pad, first + rest');
      OddLine(st, Run(st', pad), lines[0], rest, indent, rest', m);
    } else {
      LineStepLike(st, st', lines[0], indent, m, pad);
      LaterOff(lines, i, continuation);
      AtNextLine(st, lines, i);
      RunLine(st', pad + first, Rendered(lines[1..], i + 1, continuation, indent, pad));
      LinesOff(Step(Run(st, lines[0]), '\n', ""), Step(Run(st', pad + first), '\n', ""),
               lines[1..], i + 1, continuation, indent, m, pad);
    }
  }

  lemma IndentIsSpace(w: string)
    requires IsIndent(w)
    ensures AllSpace(w)
  {
  }

  lemma SameLead(line: string, i: nat, a: set<nat>, b: set<nat>)
    requires i in a <==> i in b
    ensures PlainLead(line, i, a) <==> PlainLead(line, i, b)
  {
  }

  lemma LaterOff(lines: seq<string>, i: nat, continuation: set<nat>)
    requires lines != [] && !PlainLeads(lines, i, continuation) && PlainLead(lines[0], i, continuation)
    ensures |lines| > 1 && !PlainLeads(lines[1..], i + 1, continuation)
  {
    hide PlainLead;
    var k :| 0 <= k < |lines| && !PlainLead(lines[k], i + k, continuation);
    assert lines[k] == lines[1..][k - 1];
    assert !PlainLead(lines[1..][k - 1], i + 1 + (k - 1), continuation);
  }

  // ---- Splicing ------------------------------------------------------------------

  /** The tokenizer can read on behind the spliced fragment, having read exactly its tokens. */
  ghost predicate Splices(st: State, f: string, indent: string, pad: string)
    requires st.Running? && st.line >= 1 && LexOf(f).Tokens?
  {
    var e := Run(st, Join(Prefixed(pad, IndentFragment(f, indent))));
    e.Running? && !e.mode.Quote? && EndToken(e).tokens == st.tokens + Moved(f, st.line - 1, pad)
  }

  lemma StartLines(f: string)
    requires LexOf(f).Tokens?
    ensures var lines := Split(TrimmedText(f));
            AtLine(START, lines, 0) && Join(lines) == TrimmedText(f)
  {
    hide Run, Step, Join, Split, TrimmedText;
    TrimmedTokens(f);
    JoinSplit(TrimmedText(f));
  }

  lemma StartLike(st: State, pad: string)
    requires st.Running? && st.mode.Between? && st.line >= 1 && IsIndent(pad)
    ensures var m := Deeper(st.line - 1, st.tokens, pad);
            Like(START, Run(st, pad), m) && m == Deeper(m.lines, m.before, pad)
  {
    RunIndent(st, pad);
  }

  /** The run over the spliced lines: like the fragment's own, or off at the first odd line. */
  lemma SpliceRuns(st: State, f: string, indent: string, pad: string) returns (e: State, e': State, m: Move)
    requires st.Running? && st.mode.Between? && st.line >= 1
    requires LexOf(f).Tokens? && IsIndent(indent) && IsIndent(pad)
    ensures e == Run(START, TrimmedText(f)) && e' == Run(st, Join(Prefixed(pad, IndentFragment(f, indent))))
    ensures m == Deeper(st.line - 1, st.tokens, pad)
    ensures e.Running? && !e.mode.Quote?
    ensures var lines := Split(TrimmedText(f));
            if PlainLeads(lines, 0, LexOf(f).continuation) then Like(e, e', m)
            else e'.Running? && !e'.mode.Quote? ==> Off(EndToken(e).tokens, EndToken(e').tokens, m)
  {
    hide Run, Step, Like, AtLine, TrimmedText, Join, Split, Prefixed, IndentLines, Deeper, PlainLeads, Off;
    StartLines(f);
    StartLike(st, pad);
    var all;
    e, all := TrimmedRuns(f);
    e' := Run(st, Join(Prefixed(pad, IndentFragment(f, indent))));
    m := Deeper(st.line - 1, st.tokens, pad);
    var lines := Split(TrimmedText(f));
    if PlainLeads(lines, 0, LexOf(f).continuation) {
      LinesLike(START, st, lines, 0, LexOf(f).continuation, indent, m, pad);
    } else if e'.Running? && !e'.mode.Quote? {
      LinesOff(START, st, lines, 0, LexOf(f).continuation, indent, m, pad);
    }
  }

  lemma {:induction false} PadGrows(a: string, b: string, pad: string)
    requires a <= b
    ensures Pad(a, pad) <= Pad(b, pad) && (a != b ==> |Pad(a, pad)| < |Pad(b, pad)|)
    decreases |b|
  {
    if a != b {
      var init := b[..|b| - 1];
      PadGrows(a, init, pad);
    }
  }

  /** `moved` are all the tokens behind CRLF normalisation, moved. */
  ghost predicate AllMoved(all: seq<Token>, moved: seq<Token>, m: Move) {
    |moved| == |all| && forall i :: 0 <= i < |moved| ==> moved[i] == m.One(all[i])
  }

  lemma MovedOnes(f: string, all: seq<Token>, m: Move, pad: string)
    requires LexOf(f).Tokens? && DROP_CR.Follows(LexOf(f).tokens, all) && m == Deeper(m.lines, m.before, pad)
    ensures AllMoved(all, Moved(f, m.lines, pad), m)
  {
    hide DropCr, Pad, LexOf;
    var own := LexOf(f).tokens;
    forall i | 0 <= i < |own| ensures Moved(f, m.lines, pad)[i] == m.One(all[i]) {
      assert all[|DROP_CR.before| + i] == DROP_CR.One(own[i]);
    }
  }

  /** Alike up to the end, the runs have the same tokens exactly if the end adds none. */
  lemma SplicedTokens(all: seq<Token>, e: State, e': State, m: Move, pad: string, moved: seq<Token>)
    requires AllMoved(all, moved, m) && m == Deeper(m.lines, m.before, pad)
    requires Like(e, e', m) && e.Running? && !e.mode.Quote?
    ensures e'.Running? && !e'.mode.Quote?
    ensures all == EndToken(e).tokens ==> EndToken(e').tokens == m.before + moved
    ensures Longer(EndToken(e).tokens, all) ==> EndToken(e').tokens != m.before + moved
  {
    hide DropCr, Pad;
    EndTokenLike(e, e', m);
    var ts, ts' := EndToken(e).tokens, EndToken(e').tokens;
    if Longer(ts, all) {
      var k :| 0 <= k < |all| && (k >= |ts| || ts[k].text < all[k].text);
      assert (m.before + moved)[|m.before| + k] == moved[k] == m.One(all[k]);
      if k < |ts| {
        PadGrows(ts[k].text, all[k].text, pad);
        assert ts'[|m.before| + k] == m.One(ts[k]);
      }
    }
  }

  /** Where the runs part, so do the tokens. */
  lemma OffTokens(all: seq<Token>, ts: seq<Token>, ts': seq<Token>, m: Move, pad: string, moved: seq<Token>)
    requires AllMoved(all, moved, m) && m == Deeper(m.lines, m.before, pad)
    requires Extends(ts, all) && Off(ts, ts', m)
    ensures ts' != m.before + moved
  {
    hide DropCr, Pad, IsSpace;
    var k :| 0 <= k < |ts| && (|m.before| + k < |ts'| ==> Clash(ts[k], ts'[|m.before| + k], m.lines));
    if |m.before| + k < |ts'| {
      PadHead(all[k].text, pad);
      assert (m.before + moved)[|m.before| + k] == moved[k] == m.One(all[k]);
    }
  }

  lemma {:induction false} PadHead(s: string, pad: string)
    requires s != "" && s[0] != '\n'
    ensures Pad(s, pad) != "" && Pad(s, pad)[0] == s[0]
  {
    if |s| > 1 { PadHead(s[..|s| - 1], pad); }
  }

  /**
   Splicing a re-indented fragment into a file, its lines all prefixed with `pad`, adds
   exactly the fragment's own tokens to the file's, none split, joined, dropped, moved to
   another line or requoted, if and only if the white space that re-indenting takes off
   is white space to the tokenizer too. Texts change only by CRLF -> LF and by `pad` in
   multi-line quotes.
   */
  lemma SpliceTokens(st: State, f: string, indent: string, pad: string)
    requires st.Running? && st.mode.Between? && st.line >= 1
    requires LexOf(f).Tokens? && IsIndent(indent) && IsIndent(pad)
    ensures Splices(st, f, indent, pad) <==> KeepsTokens(f)
  {
    hide Run, IndentFragment, Prefixed, Like, Step, TrimmedText, DropCr, Join, Split, LexOf;
    hide PlainLeads, PlainEnd, Off, Longer, Extends, AllMoved;
    var trimmed, all := TrimmedRuns(f);
    var e, e', m := SpliceRuns(st, f, indent, pad);
    var moved := Moved(f, st.line - 1, pad);
    MovedOnes(f, EndToken(all).tokens, m, pad);
    if PlainLeads(Split(TrimmedText(f)), 0, LexOf(f).continuation) {
      SplicedTokens(EndToken(all).tokens, e, e', m, pad, moved);
    } else if e'.Running? && !e'.mode.Quote? {
      OffTokens(EndToken(all).tokens, EndToken(e).tokens, EndToken(e').tokens, m, pad, moved);
    }
  }
}
