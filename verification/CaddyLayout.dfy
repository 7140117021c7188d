/**
 Comparing two runs of the tokenizer.

 `Like` says that one state is the other one moved down by some lines, behind some
 earlier tokens, with every token text rewritten in a way that only line feeds can
 notice. From it follows what normalising and trimming do to the tokens of a text
 (the first steps of `indentFragment` in staticRouting.ts).
 */
module CaddyLayout {
  import opened Text
  import opened CaddyLexer

  /** What an indentation is made of: any lexer space but the line feed. */
  predicate IsIndent(s: string) {
    forall i :: 0 <= i < |s| ==> IsLexSpace(s[i]) && s[i] != '\n'
  }

  /** White space to JavaScript, but part of a word to the tokenizer: a vertical tab, say. */
  predicate IsOddSpace(c: char) {
    IsSpace(c) && !IsLexSpace(c)
  }

  // ---- One run simulating another ----------------------------------------------

  /**
   How the second run differs: lines further down, tokens before, and texts rewritten.
   `same` says that continuation lines are the same as well.
   */
  datatype Move = Move(lines: nat, before: seq<Token>, text: string -> string, same: bool) {
    ghost function One(t: Token): Token {
      Token(text(t.text), t.quoted, t.line + lines, t.endLine + lines)
    }

    /** `ts'` is `before` followed by the moved tokens of `ts`. */
    ghost predicate Follows(ts: seq<Token>, ts': seq<Token>) {
      && |ts'| == |before| + |ts|
      && ts'[..|before|] == before
      && forall i :: 0 <= i < |ts| ==> ts'[|before| + i] == One(ts[i])
    }

    ghost function Mode(mode: Mode): Mode {
      match mode
      case Word(s, start) => Word(text(s), start + lines)
      case Quote(mark, s, start) => Quote(mark, text(s), start + lines)
      case _ => mode
    }

    /** The rewriting only notices line feeds. */
    ghost predicate Plain() {
      text("") == "" && forall s: string, c: char :: c != '\n' ==> text(s + [c]) == text(s) + [c]
    }
  }

  ghost predicate Like(st: State, st': State, m: Move) {
    st.Running? ==>
      && st'.Running?
      && st'.line == st.line + m.lines
      && st'.mode == m.Mode(st.mode)
      && m.Follows(st.tokens, st'.tokens)
      && (m.same ==> st'.continuation == st.continuation)
  }

  /** Only a line feed behind a carriage return is read together with what precedes it. */
  lemma {:induction false} DropCrLast(s: string, c: char)
    requires c != '\n' || s == "" || s[|s| - 1] != '\r'
    ensures DropCr(s + [c]) == DropCr(s) + [c]
  {
    if s == "" {
    } else if |s| >= 2 && s[0] == '\r' && s[1] == '\n' {
      assert (s + [c])[2..] == s[2..] + [c];
      DropCrLast(s[2..], c);
    } else {
      assert (s + [c])[1..] == s[1..] + [c];
      DropCrLast(s[1..], c);
    }
  }

  lemma {:induction false} DropCrPair(s: string)
    ensures DropCr(s + "\r\n") == DropCr(s) + "\n"
  {
    if s == "" {
    } else if |s| >= 2 && s[0] == '\r' && s[1] == '\n' {
      assert (s + "\r\n")[2..] == s[2..] + "\r\n";
      DropCrPair(s[2..]);
    } else {
      assert (s + "\r\n")[1..] == s[1..] + "\r\n";
      DropCrPair(s[1..]);
    }
  }

  lemma PlainAt(m: Move, s: string, c: char)
    requires m.Plain() && c != '\n'
    ensures m.text("") == "" && m.text(s + [c]) == m.text(s) + [c]
  {
  }

  lemma EndTokenLike(st: State, st': State, m: Move)
    requires st.Running? && Like(st, st', m)
    ensures Like(EndToken(st), EndToken(st'), m)
  {
  }

  /** Any character but a line feed keeps two runs alike. */
  lemma StepLike(st: State, st': State, c: char, next: string, m: Move)
    requires Like(st, st', m) && c != '\n' && m.Plain()
    ensures Like(Step(st, c, next), Step(st', c, next), m)
  {
    hide Move.Plain;
    if st.Running? {
      EndTokenLike(st, st', m);
      PlainAt(m, if st.mode.Word? || st.mode.Quote? then st.mode.text else "", c);
      PlainAt(m, "", c);
    }
  }

  /** The same line keeps two runs alike. */
  lemma {:induction false} RunLike(st: State, st': State, s: string, m: Move)
    requires Like(st, st', m) && '\n' !in s && m.Plain()
    ensures Like(Run(st, s), Run(st', s), m)
    decreases |s|
  {
    hide Move.Plain;
    if st.Running? && s != "" {
      if Escapes(st.mode, s[0], Peek(s)) {
        PlainAt(m, st.mode.text, '"');
        RunLike(Escaped(st), Escaped(st'), s[2..], m);
      } else {
        StepLike(st, st', s[0], Peek(s), m);
        RunLike(Step(st, s[0], Peek(s)), Step(st', s[0], Peek(s)), s[1..], m);
      }
    }
  }

  // ---- Where a run can be cut --------------------------------------------------

  lemma CutFirst(a: string, c: char, b: string)
    requires a != ""
    ensures (a + [c] + b)[0] == a[0] && (a + [c] + b)[1..] == a[1..] + [c] + b
  {
  }

  /** White space is read the same whatever follows it, and ends any lookahead. */
  lemma {:induction false} RunBreak(st: State, a: string, c: char, b: string)
    requires IsSpace(c)
    ensures Run(st, a + [c] + b) == Run(Step(Run(st, a), c, ""), b)
    decreases |a|
  {
    var s := a + [c] + b;
    if a == "" {
      assert s == [c] + b;
    } else if st.Running? {
      if Escapes(st.mode, s[0], Peek(s)) {
        assert Peek(s) == Peek(a);
        CutFirst(a, c, b);
        CutFirst(a[1..], c, b);
        RunBreak(Escaped(st), a[2..], c, b);
      } else {
        CutFirst(a, c, b);
        assert Step(st, s[0], Peek(s)) == Step(st, a[0], Peek(a));
        RunBreak(Step(st, a[0], Peek(a)), a[1..], c, b);
      }
    }
  }

  lemma RunLine(st: State, line: string, rest: string)
    ensures Run(st, line + "\n" + rest) == Run(Step(Run(st, line), '\n', ""), rest)
  {
    RunBreak(st, line, '\n', rest);
  }

  /** A run can be cut before white space, and behind it. */
  lemma RunSpaces(st: State, a: string, w: string)
    requires AllSpace(w)
    ensures Run(st, a + w) == Run(Run(st, a), w)
  {
    if w == "" {
      assert a + w == a;
    } else {
      hide Step, IsSpace, Run;
      assert a + w == a + [w[0]] + w[1..] && w == "" + [w[0]] + w[1..] && w[0] in w;
      RunBreak(st, a, w[0], w[1..]);
      RunBreak(Run(st, a), "", w[0], w[1..]);
      RunNothing(Run(st, a));
    }
  }

  lemma RunNothing(st: State)
    ensures Run(st, "") == st
  {
  }

  lemma RunBehindSpaces(st: State, w: string, rest: string)
    requires AllSpace(w)
    ensures Run(st, w + rest) == Run(Run(st, w), rest)
  {
    if w == "" {
      assert w + rest == rest;
    } else {
      hide Step, IsSpace;
      var n := |w| - 1;
      assert w + rest == w[..n] + [w[n]] + rest && w == w[..n] + [w[n]] + "" && w[n] in w;
      RunBreak(st, w[..n], w[n], rest);
      RunBreak(st, w[..n], w[n], "");
    }
  }

  /** Between tokens, an indentation changes nothing. */
  lemma {:induction false} RunIndent(st: State, w: string)
    requires IsIndent(w) && st.Running? && st.mode.Between?
    ensures Run(st, w) == st
  {
    if w != "" { RunIndent(st, w[1..]); }
  }

  lemma SkipIndent(st: State, w: string, rest: string)
    requires IsIndent(w) && st.Running? && st.mode.Between?
    ensures Run(st, w + rest) == Run(st, rest)
  {
    RunBehindSpaces(st, w, rest);
    RunIndent(st, w);
  }

  // ---- Carriage returns --------------------------------------------------------

  ghost const DROP_CR := Move(0, [], DropCr, true)

  lemma DropCrPlain()
    ensures DROP_CR.Plain()
  {
    forall s: string, c: char | c != '\n' ensures DropCr(s + [c]) == DropCr(s) + [c] { DropCrLast(s, c); }
  }

  /** The text in progress does not end in a carriage return that a line feed would drop. */
  ghost predicate CrSafe(st: State, s: string) {
    st.Running? && st.mode.Quote? && s != "" && s[0] == '\n' && st.mode.text != "" ==>
      st.mode.text[|st.mode.text| - 1] != '\r'
  }

  lemma CrLfLike(st: State, st': State)
    requires Like(st, st', DROP_CR)
    ensures Like(Step(Step(st, '\r', "\n"), '\n', ""), Step(st', '\n', ""), DROP_CR)
  {
    if st.Running? {
      if st.mode.Quote? {
        DropCrPair(st.mode.text);
        assert st.mode.text + "\r\n" == st.mode.text + ['\r'] + ['\n'];
        hide DropCr;
        assert Step(Step(st, '\r', "\n"), '\n', "") ==
               Running(Quote(st.mode.mark, st.mode.text + "\r\n", st.mode.start),
                       st.line + 1, st.tokens, st.continuation + {st.line});
      } else {
        hide DropCr;
        EndTokenLike(st, st', DROP_CR);
        assert Step(Step(st, '\r', "\n"), '\n', "") == Newline(EndToken(st));
      }
    }
  }

  lemma CharLike(st: State, st': State, c: char, next: string, next': string)
    requires Like(st, st', DROP_CR) && CrSafe(st, [c])
    requires next' == next || (next == "\r" && next' == "\n")
    ensures Like(Step(st, c, next), Step(st', c, next'), DROP_CR)
  {
    assert Step(st, c, next) == Step(st, c, next');
    if c != '\n' {
      hide Move.Plain;
      DropCrPlain();
      StepLike(st, st', c, next', DROP_CR);
    } else if st.Running? {
      EndTokenLike(st, st', DROP_CR);
      if st.mode.Quote? { DropCrLast(st.mode.text, '\n'); }
    }
  }

  lemma EscapeLike(st: State, st': State)
    requires Like(st, st', DROP_CR) && st.Running? && st.mode.Quote?
    ensures Like(Escaped(st), Escaped(st'), DROP_CR)
  {
    DropCrPlain();
  }

  lemma RunCrLf(st: State, rest: string)
    ensures Run(st, "\r\n" + rest) == Run(Step(Step(st, '\r', "\n"), '\n', ""), rest)
    ensures Run(st, "\n" + rest) == Run(Step(st, '\n', ""), rest)
  {
    assert "\r\n" + rest == "\r" + ['\n'] + rest && "\n" + rest == "" + ['\n'] + rest;
    RunBreak(st, "\r", '\n', rest);
    RunBreak(st, "", '\n', rest);
  }

  lemma RunEscape(st: State, rest: string)
    requires st.Running? && st.mode.Quote? && st.mode.mark == '"'
    ensures Run(st, "\\\"" + rest) == Run(Escaped(st), rest)
  {
    assert ("\\\"" + rest)[2..] == rest;
  }

  lemma RunChar(st: State, c: char, rest: string)
    requires st.Running? && !Escapes(st.mode, c, Peek([c] + rest))
    ensures Run(st, [c] + rest) == Run(Step(st, c, Peek([c] + rest)), rest)
  {
    assert ([c] + rest)[1..] == rest;
  }

  /** Dropping the carriage return of a CRLF drops it from the texts, and nothing else. */
  lemma {:induction false} DropCrLike(st: State, st': State, s: string)
    requires Like(st, st', DROP_CR) && CrSafe(st, s)
    ensures Like(Run(st, s), Run(st', DropCr(s)), DROP_CR)
    decreases |s|
  {
    if st.Failed? || s == "" {
    } else if |s| >= 2 && s[0] == '\r' && s[1] == '\n' {
      DropCrLikeCrLf(st, st', s[2..]);
      assert s == "\r\n" + s[2..];
    } else if Escapes(st.mode, s[0], Peek(s)) {
      DropCrLikeEscape(st, st', s[2..]);
      assert s == "\\\"" + s[2..];
    } else {
      DropCrLikeChar(st, st', s);
    }
  }

  lemma {:induction false} DropCrLikeCrLf(st: State, st': State, s: string)
    requires Like(st, st', DROP_CR)
    ensures Like(Run(st, "\r\n" + s), Run(st', DropCr("\r\n" + s)), DROP_CR)
    decreases |s| + 1
  {
    CrLfLike(st, st');
    RunCrLf(st, s);
    RunCrLf(st', DropCr(s));
    assert ("\r\n" + s)[2..] == s;
    DropCrLike(Step(Step(st, '\r', "\n"), '\n', ""), Step(st', '\n', ""), s);
  }

  lemma {:induction false} DropCrLikeEscape(st: State, st': State, s: string)
    requires Like(st, st', DROP_CR) && st.Running? && st.mode.Quote? && st.mode.mark == '"'
    ensures Like(Run(st, "\\\"" + s), Run(st', DropCr("\\\"" + s)), DROP_CR)
    decreases |s| + 1
  {
    hide Run, Step, Like;
    EscapeLike(st, st');
    QuoteLike(st, st');
    RunEscape(st, s);
    RunEscape(st', DropCr(s));
    DropCrEscape(s);
    DropCrLike(Escaped(st), Escaped(st'), s);
  }

  lemma QuoteLike(st: State, st': State)
    requires Like(st, st', DROP_CR) && st.Running? && st.mode.Quote?
    ensures st'.Running? && st'.mode.Quote? && st'.mode.mark == st.mode.mark
  {
  }

  lemma DropCrEscape(s: string)
    ensures DropCr("\\\"" + s) == "\\\"" + DropCr(s)
  {
    hide DropCr;
    assert ("\\\"" + s)[1..] == "\"" + s && ("\"" + s)[1..] == s;
    DropCrHead("\\\"" + s);
    DropCrHead("\"" + s);
  }

  lemma {:induction false} DropCrLikeChar(st: State, st': State, s: string)
    requires Like(st, st', DROP_CR) && CrSafe(st, s)
    requires st.Running? && s != "" && !(|s| >= 2 && s[0] == '\r' && s[1] == '\n') && !Escapes(st.mode, s[0], Peek(s))
    ensures Like(Run(st, s), Run(st', DropCr(s)), DROP_CR)
    decreases |s|, 0
  {
    DropCrNext(s);
    CharLike(st, st', s[0], Peek(s), Peek(DropCr(s)));
    assert s == [s[0]] + s[1..];
    RunChar(st, s[0], s[1..]);
    RunChar(st', s[0], DropCr(s[1..]));
    CharSafe(st, s[0], Peek(s), s[1..]);
    DropCrLike(Step(st, s[0], Peek(s)), Step(st', s[0], Peek(DropCr(s))), s[1..]);
  }

  lemma CharSafe(st: State, c: char, next: string, rest: string)
    requires st.Running? && !(c == '\r' && rest != "" && rest[0] == '\n')
    ensures CrSafe(Step(st, c, next), rest)
  {
  }

  lemma DropCrHead(s: string)
    ensures s == "" <==> DropCr(s) == ""
    ensures s != "" ==> DropCr(s)[0] == s[0] || (s[0] == '\r' && DropCr(s)[0] == '\n')
    ensures s != "" && !(|s| >= 2 && s[0] == '\r' && s[1] == '\n') ==> DropCr(s) == [s[0]] + DropCr(s[1..])
  {
  }

  lemma DropCrNext(s: string)
    requires s != "" && !(|s| >= 2 && s[0] == '\r' && s[1] == '\n')
    ensures Peek(DropCr(s)) == Peek(s) || (Peek(s) == "\r" && Peek(DropCr(s)) == "\n")
  {
    hide DropCr;
    DropCrHead(s);
    DropCrHead(s[1..]);
    assert Peek(s) == if |s| >= 2 then [s[1]] else "";
    assert Peek(DropCr(s)) == if |s| >= 2 then [DropCr(s[1..])[0]] else "";
  }

  // ---- The token in progress ----------------------------------------------------

  lemma {:induction false} TokensGrow(st: State, s: string)
    requires Run(st, s).Running?
    ensures st.Running? && st.tokens <= EndToken(Run(st, s)).tokens
    decreases |s|
  {
    if s == "" || st.Failed? {
    } else if Escapes(st.mode, s[0], Peek(s)) {
      TokensGrow(Escaped(st), s[2..]);
    } else {
      TokensGrow(Step(st, s[0], Peek(s)), s[1..]);
    }
  }

  /** Whatever follows, a token that has begun becomes the next token, with what it begins with. */
  lemma {:induction false} TokenInProgress(st: State, s: string)
    requires st.Running? && (st.mode.Word? || st.mode.Quote?)
    requires Run(st, s).Running? && !Run(st, s).mode.Quote?
    ensures var ts, k := EndToken(Run(st, s)).tokens, |st.tokens|;
            && k < |ts|
            && st.mode.text <= ts[k].text
            && ts[k].quoted == st.mode.Quote?
            && ts[k].line == st.mode.start
    decreases |s|
  {
    if s == "" {
    } else if Escapes(st.mode, s[0], Peek(s)) {
      TokenInProgress(Escaped(st), s[2..]);
    } else {
      var next := Step(st, s[0], Peek(s));
      if next.Running? {
        if next.mode.Between? { TokensGrow(next, s[1..]); } else { TokenInProgress(next, s[1..]); }
      }
    }
  }

  // ---- Trailing white space ----------------------------------------------------

  /** White space behind `st` adds nothing: only a comment takes up what the tokenizer knows no space for. */
  predicate PlainTail(st: State, tail: string) {
    forall k :: 0 <= k < |tail| && !IsLexSpace(tail[k]) ==> st.Running? && st.mode.Comment? && '\n' !in tail[..k]
  }

  /** The same tokens, but that the last may be longer and others may follow. */
  ghost predicate Extends(ts: seq<Token>, ts': seq<Token>) {
    && |ts| <= |ts'|
    && forall k :: 0 <= k < |ts| ==>
         ts[k].text <= ts'[k].text && ts'[k].quoted == ts[k].quoted && ts'[k].line == ts[k].line
  }

  ghost predicate Longer(ts: seq<Token>, ts': seq<Token>) {
    exists k :: 0 <= k < |ts'| && (k >= |ts| || ts[k].text < ts'[k].text)
  }

  lemma PlainTailStep(st: State, w: string)
    requires st.Running? && !st.mode.Quote? && AllSpace(w) && w != "" && (st.mode.Comment? || IsLexSpace(w[0]))
    ensures var next := Step(st, w[0], Peek(w));
            && next.Running? && !next.mode.Quote? && next.continuation == st.continuation
            && EndToken(next).tokens == EndToken(st).tokens
            && (PlainTail(st, w) <==> PlainTail(next, w[1..]))
  {
    hide IsSpace, IsLexSpace;
    var next := Step(st, w[0], Peek(w));
    if st.mode.Comment? && w[0] != '\n' {
      assert next == st;
      assert forall k :: 1 <= k <= |w| ==> w[..k] == [w[0]] + w[1..][..k - 1];
    } else {
      assert next.mode.Between?;
      assert '\n' == w[0] || !st.mode.Comment?;
      assert forall k :: 1 <= k <= |w| ==> w[0] in w[..k];
    }
    if PlainTail(st, w) {
      forall k | 0 <= k < |w[1..]| && !IsLexSpace(w[1..][k])
        ensures next.mode.Comment? && '\n' !in w[1..][..k]
      {
        assert w[k + 1] == w[1..][k];
      }
    }
  }

  /** Outside a comment, white space that the tokenizer does not know begins or lengthens a word. */
  lemma OddStep(st: State, w: string)
    requires st.Running? && !st.mode.Quote? && !st.mode.Comment? && AllSpace(w) && w != "" && !IsLexSpace(w[0])
    ensures var next := Step(st, w[0], Peek(w));
            && Run(st, w) == Run(next, w[1..])
            && next == st.(mode := if st.mode.Word? then Word(st.mode.text + [w[0]], st.mode.start)
                                   else Word([w[0]], st.line))
  {
    assert "" + [w[0]] == [w[0]] && w[0] in w;
  }

  lemma OddTail(st: State, w: string)
    requires st.Running? && !st.mode.Quote? && !st.mode.Comment? && AllSpace(w) && w != "" && !IsLexSpace(w[0])
    requires Run(st, w).Running? && !Run(st, w).mode.Quote?
    ensures !PlainTail(st, w)
    ensures Extends(EndToken(st).tokens, EndToken(Run(st, w)).tokens)
    ensures Longer(EndToken(st).tokens, EndToken(Run(st, w)).tokens)
  {
    hide Step, IsSpace, IsLexSpace, Run;
    OddStep(st, w);
    var next, k := Step(st, w[0], Peek(w)), |st.tokens|;
    var ts, ts' := EndToken(st).tokens, EndToken(Run(st, w)).tokens;
    TokensGrow(st, w);
    TokenInProgress(next, w[1..]);
    assert k >= |ts| || ts[k].text < ts'[k].text;
  }

  /** White space at the end leaves the tokens as they are if and only if it is plain. */
  lemma {:induction false} TailTokens(st: State, w: string)
    requires st.Running? && !st.mode.Quote? && AllSpace(w)
    ensures var e := Run(st, w); e.Running? && !e.mode.Quote? && e.continuation == st.continuation
    ensures var ts, ts' := EndToken(st).tokens, EndToken(Run(st, w)).tokens;
            Extends(ts, ts') && if PlainTail(st, w) then ts' == ts else Longer(ts, ts')
    decreases |w|
  {
    hide IsSpace, IsLexSpace, PlainTail, Longer, Extends;
    if w == "" {
      NoTail(st);
    } else if st.mode.Comment? || IsLexSpace(w[0]) {
      PlainTailStep(st, w);
      TailTokens(Step(st, w[0], Peek(w)), w[1..]);
    } else {
      OddStep(st, w);
      TailTokens(Step(st, w[0], Peek(w)), w[1..]);
      OddTail(st, w);
    }
  }

  lemma NoTail(st: State)
    requires st.Running?
    ensures PlainTail(st, "") && Extends(EndToken(st).tokens, EndToken(st).tokens)
  {
  }

  lemma {:induction false} QuoteStaysOpen(st: State, w: string)
    requires st.Running? && st.mode.Quote? && AllSpace(w)
    ensures Run(st, w).Running? && Run(st, w).mode.Quote?
    decreases |w|
  {
    if w != "" {
      assert w[0] in w;
      QuoteStaysOpen(Step(st, w[0], Peek(w)), w[1..]);
    }
  }

  /** What `indentFragment` does before it splits the text into lines. */
  function TrimmedText(f: string): string {
    TrimEnd(DropCr(f))
  }

  /** The white space trimmed off the end is nothing to the tokenizer. */
  predicate PlainEnd(f: string) {
    PlainTail(Run(START, TrimmedText(f)), TrailingSpace(DropCr(f)))
  }

  /** The text behind CRLF normalisation, read up to where it is trimmed, and then to its end. */
  lemma TrimmedRuns(f: string) returns (e: State, all: State)
    requires LexOf(f).Tokens?
    ensures e == Run(START, TrimmedText(f)) && e.Running? && !e.mode.Quote? && all.Running? && !all.mode.Quote?
    ensures e.continuation == all.continuation == LexOf(f).continuation
    ensures DROP_CR.Follows(LexOf(f).tokens, EndToken(all).tokens)
    ensures var ts, ts' := EndToken(e).tokens, EndToken(all).tokens;
            Extends(ts, ts') && if PlainEnd(f) then ts' == ts else Longer(ts, ts')
  {
    hide Run, Step, TrimEnd, Move.Plain, TrailingSpace, DropCr, PlainTail, Extends, Longer;
    DropCrLike(START, START, f);
    all := Run(START, DropCr(f));
    EndTokenLike(Run(START, f), all, DROP_CR);
    RestAndTrail(DropCr(f));
    e := Run(START, TrimmedText(f));
    var w := TrailingSpace(DropCr(f));
    RunSpaces(START, TrimmedText(f), w);
    if e.Failed? { RunFailed(e, w); } else if e.mode.Quote? { QuoteStaysOpen(e, w); } else { TailTokens(e, w); }
  }

  lemma RunFailed(st: State, s: string)
    ensures st.Failed? ==> Run(st, s).Failed?
  {
  }

  /**
   Normalising and trimming a text that tokenizes never makes it one that does not, keeps
   its continuation lines, and keeps its tokens exactly if the white space trimmed off
   is plain.
   */
  lemma TrimmedTokens(f: string)
    requires LexOf(f).Tokens?
    ensures var own, kept := LexOf(f), LexOf(TrimmedText(f));
            && kept.Tokens? && kept.continuation == own.continuation
            && (DROP_CR.Follows(own.tokens, kept.tokens) <==> PlainEnd(f))
  {
    hide Run, TrimmedText, PlainEnd, DropCr, Longer, Extends;
    var e, all := TrimmedRuns(f);
    var own, kept := LexOf(f), LexOf(TrimmedText(f));
    if DROP_CR.Follows(own.tokens, kept.tokens) {
      NotLonger(own.tokens, kept.tokens, EndToken(all).tokens);
    }
  }

  lemma NotLonger(own: seq<Token>, ts: seq<Token>, ts': seq<Token>)
    requires DROP_CR.Follows(own, ts) && DROP_CR.Follows(own, ts')
    ensures !Longer(ts, ts')
  {
    forall k | 0 <= k < |own| ensures ts[k] == ts'[k] {
      assert ts[|DROP_CR.before| + k] == DROP_CR.One(own[k]) == ts'[|DROP_CR.before| + k];
    }
  }
}
