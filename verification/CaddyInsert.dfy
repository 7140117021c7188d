/**
 White space put in front of the lines of a text (indentation, and the prefix of a nested
 block), seen by the tokenizer.

 In contrast to `CaddySplice` nothing is said about what the text was made from. Two runs
 over the same lines, one of them with white space in front of each, fail together and
 read the same tokens, but that texts with a line feed in them may differ.
 */
module CaddyInsert {
  import opened Text
  import opened CaddyLexer
  import opened CaddyLayout
  import opened CaddySplice

  /** Texts that are the same, or that both go over a line end; with `same`, the same. */
  predicate Matches(a: string, b: string, same: bool) {
    a == b || (!same && '\n' in a && '\n' in b)
  }

  ghost predicate ModesMatch(mode: Mode, mode': Mode, same: bool) {
    match mode
    case Between => mode'.Between?
    case Comment => mode'.Comment?
    case Word(text, _) => mode'.Word? && mode'.text == text
    case Quote(mark, text, _) => mode'.Quote? && mode'.mark == mark && Matches(text, mode'.text, same)
  }

  /** The tokens of `ts` from `n` on are those of `ts'` from `n'` on, one by one. */
  ghost predicate TokensMatch(ts: seq<Token>, n: nat, ts': seq<Token>, n': nat, same: bool) {
    && n <= |ts| && |ts'| == n' + (|ts| - n)
    && forall i :: n <= i < |ts| ==>
         ts'[n' + (i - n)].quoted == ts[i].quoted && Matches(ts[i].text, ts'[n' + (i - n)].text, same)
  }

  ghost predicate Match(st: State, n: nat, st': State, n': nat, same: bool) {
    && (st.Running? <==> st'.Running?)
    && (st.Running? ==> ModesMatch(st.mode, st'.mode, same) && TokensMatch(st.tokens, n, st'.tokens, n', same))
  }

  /** At the start of a line: between tokens, or in a quote that goes over its end. */
  ghost predicate Fresh(st: State, st': State) {
    st.Running? && st'.Running? ==>
      st.mode.Between? || (st.mode.Quote? && st'.mode.Quote? && '\n' in st.mode.text && '\n' in st'.mode.text)
  }

  lemma EndTokenMatch(st: State, n: nat, st': State, n': nat, same: bool)
    requires st.Running? && Match(st, n, st', n', same)
    ensures Match(EndToken(st), n, EndToken(st'), n', same)
  {
  }

  lemma MatchesMore(a: string, b: string, same: bool, c: string)
    requires Matches(a, b, same)
    ensures Matches(a + c, b + c, same)
  {
  }

  /** Any character keeps the runs matched. */
  lemma StepMatch(st: State, n: nat, st': State, n': nat, same: bool, c: char, next: string)
    requires Match(st, n, st', n', same)
    ensures Match(Step(st, c, next), n, Step(st', c, next), n', same)
    ensures c == '\n' ==> Fresh(Step(st, c, next), Step(st', c, next))
  {
    if st.Running? {
      EndTokenMatch(st, n, st', n', same);
      if st.mode.Quote? { MatchesMore(st.mode.text, st'.mode.text, same, [c]); }
      hide Matches, TokensMatch;
    }
  }

  lemma {:induction false} RunMatch(st: State, n: nat, st': State, n': nat, same: bool, s: string)
    requires Match(st, n, st', n', same)
    ensures Match(Run(st, s), n, Run(st', s), n', same)
    decreases |s|
  {
    hide Matches, TokensMatch, Step;
    if st.Running? && s != "" {
      if Escapes(st.mode, s[0], Peek(s)) {
        MatchesMore(st.mode.text, st'.mode.text, same, "\"");
        RunMatch(Escaped(st), n, Escaped(st'), n', same, s[2..]);
      } else {
        StepMatch(st, n, st', n', same, s[0], Peek(s));
        RunMatch(Step(st, s[0], Peek(s)), n, Step(st', s[0], Peek(s)), n', same, s[1..]);
      }
    }
  }

  /** `r` is `x` with white space in front; with `same`, with none. */
  ghost predicate Indented(x: string, r: string, same: bool) {
    exists w :: r == w + x && IsIndent(w) && (same ==> w == "")
  }

  ghost predicate AllIndented(xs: seq<string>, rs: seq<string>, same: bool) {
    |rs| == |xs| && forall k :: 0 <= k < |xs| ==> Indented(xs[k], rs[k], same)
  }

  /** White space at the start of a line keeps the runs matched. */
  lemma InsertMatch(st: State, n: nat, st': State, n': nat, same: bool, w: string)
    requires Match(st, n, st', n', same) && Fresh(st, st') && IsIndent(w) && (same ==> w == "")
    ensures Match(st, n, Run(st', w), n', same)
  {
    if st'.Running? {
      if st'.mode.Between? {
        RunIndent(st', w);
      } else {
        RunQuotedIndent(st', w);
        if w == "" { assert st'.mode.text + w == st'.mode.text; }
        hide IsIndent, TokensMatch;
      }
    }
  }

  /** One line. */
  lemma LineMatch(st: State, n: nat, st': State, n': nat, same: bool, x: string, r: string)
    requires Match(st, n, st', n', same) && Fresh(st, st') && Indented(x, r, same)
    ensures Match(Run(st, x), n, Run(st', r), n', same)
  {
    hide Run, Match, Fresh;
    var w :| r == w + x && IsIndent(w) && (same ==> w == "");
    IndentIsSpace(w);
    RunBehindSpaces(st', w, x);
    InsertMatch(st, n, st', n', same, w);
    RunMatch(st, n, Run(st', w), n', same, x);
  }

  /** Line after line. */
  lemma {:induction false} LinesMatch(
      st: State, n: nat, st': State, n': nat, same: bool, xs: seq<string>, rs: seq<string>)
    requires Match(st, n, st', n', same) && Fresh(st, st') && xs != [] && AllIndented(xs, rs, same)
    ensures Match(Run(st, Join(xs)), n, Run(st', Join(rs)), n', same)
    decreases |xs|
  {
    hide Run, Step, Match, Fresh, Indented;
    assert Indented(xs[0], rs[0], same);
    LineMatch(st, n, st', n', same, xs[0], rs[0]);
    if |xs| > 1 {
      var a, b := Run(st, xs[0]), Run(st', rs[0]);
      RunLine(st, xs[0], Join(xs[1..]));
      RunLine(st', rs[0], Join(rs[1..]));
      StepMatch(a, n, b, n', same, '\n', "");
      LinesMatch(Step(a, '\n', ""), n, Step(b, '\n', ""), n', same, xs[1..], rs[1..]);
    }
  }

  // ---- A rendered fragment ------------------------------------------------------------

  /** The text a fragment is rendered as, but for its indentation. */
  function Bare(f: string): string
    requires LexOf(f).Tokens?
  {
    Join(IndentFragment(f, ""))
  }

  function Rendering(f: string, indent: string, pad: string): string
    requires LexOf(f).Tokens?
  {
    Join(Prefixed(pad, IndentFragment(f, indent)))
  }

  lemma {:induction false} LinesIndented(
      lines: seq<string>, i: nat, continuation: set<nat>, indent: string, pad: string)
    requires IsIndent(indent) && IsIndent(pad)
    ensures AllIndented(IndentLines(lines, i, continuation, ""),
                        Prefixed(pad, IndentLines(lines, i, continuation, indent)), false)
    decreases |lines|
  {
    if lines != [] {
      LinesIndented(lines[1..], i + 1, continuation, indent, pad);
      LineIndented(lines[0], i, continuation, indent, pad);
      hide Indented, IndentLine;
      var xs, rs := IndentLines(lines, i, continuation, ""), Prefixed(pad, IndentLines(lines, i, continuation, indent));
      var xs', rs' := IndentLines(lines[1..], i + 1, continuation, ""),
                      Prefixed(pad, IndentLines(lines[1..], i + 1, continuation, indent));
      assert forall k :: 1 <= k < |xs| ==> xs[k] == xs'[k - 1];
      assert forall k :: 1 <= k < |xs| ==> rs[k] == rs'[k - 1];
    }
  }

  lemma LineIndented(line: string, i: nat, continuation: set<nat>, indent: string, pad: string)
    requires IsIndent(indent) && IsIndent(pad)
    ensures Indented(IndentLine(line, i, continuation, ""), pad + IndentLine(line, i, continuation, indent), false)
  {
    hide Trim, TrimStart;
    if i in continuation || Trim(line) == "" {
      assert pad + line == pad + line;
    } else {
      var bare := TrimStart(line);
      assert "" + bare == bare;
      assert pad + (indent + bare) == (pad + indent) + bare;
      assert IsIndent(pad + indent);
    }
  }

  /** However a fragment is indented and prefixed, its rendering is read like the bare one. */
  lemma RenderingMatch(f: string, indent: string, pad: string)
    requires LexOf(f).Tokens? && IsIndent(indent) && IsIndent(pad)
    ensures Match(Run(START, Bare(f)), 0, Run(START, Rendering(f, indent, pad)), 0, false)
  {
    hide Run, IndentLines, Join, Split, TrimmedText, LexOf, Prefixed;
    LinesIndented(Split(TrimmedText(f)), 0, LexOf(f).continuation, indent, pad);
    LinesMatch(START, 0, START, 0, false, IndentFragment(f, ""), Prefixed(pad, IndentFragment(f, indent)));
  }

  /** Wherever a text stands between tokens, it is read as the same tokens. */
  lemma ShiftMatch(st: State, s: string)
    requires st.Running? && st.mode.Between?
    ensures Match(Run(START, s), 0, Run(st, s), |st.tokens|, true)
  {
    RunMatch(START, 0, st, |st.tokens|, true, s);
  }
}
