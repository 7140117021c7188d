/**
 What the tokenizer makes of each form a token can have (`lex` in staticRouting.ts), and of
 the forms it refuses.

 The texts start between tokens and go to their end; by `CaddyLayout.RunBreak` the same is
 read when white space follows.
 */
module CaddyReading {
  import opened Text
  import opened CaddyLexer
  import opened CaddyLayout

  ghost predicate AtStart(st: State) {
    st.Running? && st.mode.Between?
  }

  function LineFeeds(s: string): nat {
    if s == "" then 0 else LineFeeds(s[..|s| - 1]) + if s[|s| - 1] == '\n' then 1 else 0
  }

  /** The 0-based numbers of the lines behind `line` that begin in a text with this many line feeds. */
  function Begun(line: nat, feeds: nat): set<nat>
    decreases feeds
  {
    if feeds == 0 then {} else {line} + Begun(line + 1, feeds - 1)
  }

  lemma {:induction false} LineFeedsCons(c: char, s: string)
    ensures LineFeeds([c] + s) == (if c == '\n' then 1 else 0) + LineFeeds(s)
    decreases |s|
  {
    if s == "" {
      assert [c] + s == [c] && [c][..0] == "";
    } else {
      assert ([c] + s)[..|s|] == [c] + s[..|s| - 1];
      LineFeedsCons(c, s[..|s| - 1]);
    }
  }

  // ---- White space and comments ----------------------------------------------------

  /** White space is nothing but line ends. */
  lemma {:induction false} BlankReads(st: State, s: string)
    requires AtStart(st) && forall c <- s :: IsLexSpace(c)
    ensures Run(st, s) == st.(line := st.line + LineFeeds(s))
    decreases |s|
  {
    if s != "" {
      assert s == [s[0]] + s[1..];
      LineFeedsCons(s[0], s[1..]);
      BlankReads(Step(st, s[0], Peek(s)), s[1..]);
    }
  }

  lemma {:induction false} CommentStays(st: State, s: string)
    requires st.Running? && st.mode.Comment? && '\n' !in s
    ensures Run(st, s) == st
    decreases |s|
  {
    if s != "" {
      assert s == [s[0]] + s[1..];
      CommentStays(st, s[1..]);
    }
  }

  /** From a `#` where a token could start to the end of the line nothing is read. */
  lemma CommentReads(st: State, s: string)
    requires AtStart(st) && '\n' !in s
    ensures Run(st, "#" + s) == st.(mode := Comment)
    ensures Run(st, "#" + s + "\n") == st.(line := st.line + 1)
  {
    assert ("#" + s)[1..] == s;
    CommentStays(st.(mode := Comment), s);
    RunBreak(st, "#" + s, '\n', "");
    assert "#" + s + ['\n'] + "" == "#" + s + "\n";
  }

  // ---- Words -----------------------------------------------------------------------

  predicate InWord(c: char) {
    !IsLexSpace(c) && c !in "\\\"`"
  }

  /** What may stand without quotes. */
  predicate IsWord(s: string) {
    s != "" && s[0] != '#' && !("<<" <= s) && forall i :: 0 <= i < |s| ==> InWord(s[i])
  }

  lemma {:induction false} WordGrows(st: State, done: string, start: nat, s: string)
    requires st.Running? && st.mode == Word(done, start) && forall i :: 0 <= i < |s| ==> InWord(s[i])
    ensures Run(st, s) == st.(mode := Word(done + s, start))
    decreases |s|
  {
    if s == "" {
      assert done + s == done;
    } else {
      WordGrows(st.(mode := Word(done + [s[0]], start)), done + [s[0]], start, s[1..]);
      assert done + [s[0]] + s[1..] == done + s;
    }
  }

  lemma WordStarts(st: State, s: string)
    requires AtStart(st) && s != "" && InWord(s[0]) && s[0] != '#' && !("<<" <= s)
    ensures Run(st, s) == Run(st.(mode := Word([s[0]], st.line)), s[1..])
  {
    assert "" + [s[0]] == [s[0]];
    if |s| >= 2 { assert Peek(s) == [s[1]] && s[..2] == [s[0], s[1]]; }
  }

  /** A word is a token of its own characters. */
  lemma WordReads(st: State, s: string)
    requires AtStart(st) && IsWord(s)
    ensures var e := Run(st, s);
      e.Running? && EndToken(e) == st.(tokens := st.tokens + [Token(s, false, st.line, st.line)])
  {
    WordStarts(st, s);
    WordGrows(st.(mode := Word([s[0]], st.line)), [s[0]], st.line, s[1..]);
    assert [s[0]] + s[1..] == s;
  }

  // ---- Quotes ----------------------------------------------------------------------

  /** A text as it is spelt between double quotes: these with a backslash in front, all else as it is. */
  function Spelt(s: string): string {
    if s == "" then "" else (if s[0] == '"' then "\\\"" else [s[0]]) + Spelt(s[1..])
  }

  /** In the middle of a quoted text. */
  function Midway(st: State, mark: Mark, done: string, start: nat): State
    requires st.Running?
  {
    st.(mode := Quote(mark, done, start))
  }

  /** Behind a text inside a quote: its line feeds count, and the lines behind them begin in the quote. */
  function Past(st: State, s: string): State
    requires st.Running?
  {
    st.(line := st.line + LineFeeds(s), continuation := st.continuation + Begun(st.line, LineFeeds(s)))
  }

  lemma PastNone(st: State)
    requires st.Running?
    ensures Past(st, "") == st
  {
  }

  lemma PastCons(st: State, c: char, rest: string)
    requires st.Running?
    ensures Past(st, [c]).Running? && Past(Past(st, [c]), rest) == Past(st, [c] + rest)
    ensures Past(st, [c]) ==
            if c == '\n' then st.(line := st.line + 1, continuation := st.continuation + {st.line}) else st
  {
    LineFeedsCons(c, rest);
    LineFeedsCons(c, "");
    assert [c] + "" == [c];
    var n := LineFeeds(rest);
    assert Begun(st.line, 1) == {st.line} + Begun(st.line + 1, 0);
    if c == '\n' { assert Begun(st.line, n + 1) == {st.line} + Begun(st.line + 1, n); }
  }

  lemma QuoteOpens(st: State, mark: Mark, rest: string)
    requires AtStart(st)
    ensures Run(st, [mark] + rest) == Run(Midway(st, mark, "", st.line), rest)
  {
    assert ([mark] + rest)[1..] == rest;
  }

  /** A character that neither ends the quote nor starts an escape. */
  lemma QuoteStep(st: State, mark: Mark, done: string, start: nat, c: char, rest: string)
    requires st.Running? && c != mark && !(mark == '"' && c == '\\' && rest != "" && rest[0] == '"')
    ensures Run(Midway(st, mark, done, start), [c] + rest) == Run(Midway(Past(st, [c]), mark, done + [c], start), rest)
  {
    hide *;
    PastOne(st, c);
    StepInQuote(st, mark, done, start, c, Next(rest));
    NoEscape(st, mark, done, start, c, rest);
    RunOne(Midway(st, mark, done, start), c, rest);
  }

  lemma PastOne(st: State, c: char)
    requires st.Running?
    ensures Past(st, [c]).Running?
    ensures Past(st, [c]) ==
            if c == '\n' then st.(line := st.line + 1, continuation := st.continuation + {st.line}) else st
  {
    PastCons(st, c, "");
  }

  lemma StepInQuote(st: State, mark: Mark, done: string, start: nat, c: char, next: string)
    requires st.Running? && c != mark
    ensures var past := if c == '\n' then st.(line := st.line + 1, continuation := st.continuation + {st.line}) else st;
      Step(Midway(st, mark, done, start), c, next) == Midway(past, mark, done + [c], start)
  {
  }

  lemma NoEscape(st: State, mark: Mark, done: string, start: nat, c: char, rest: string)
    requires st.Running? && c != mark && !(mark == '"' && c == '\\' && rest != "" && rest[0] == '"')
    ensures Midway(st, mark, done, start).Running? && !Escapes(Midway(st, mark, done, start).mode, c, Next(rest))
  {
  }

  /** One character that is no part of an escape. */
  lemma RunOne(st: State, c: char, rest: string)
    requires st.Running? && !Escapes(st.mode, c, Next(rest))
    ensures Run(st, [c] + rest) == Run(Step(st, c, Next(rest)), rest)
  {
    hide Step, Escapes;
    assert ([c] + rest)[1..] == rest && (rest != "" ==> ([c] + rest)[1..2] == [rest[0]]);
  }

  function Next(rest: string): string {
    if rest == "" then "" else [rest[0]]
  }

  lemma EscapeStep(st: State, done: string, start: nat, rest: string)
    requires st.Running?
    ensures Run(Midway(st, '"', done, start), "\\\"" + rest) == Run(Midway(st, '"', done + "\"", start), rest)
  {
    assert ("\\\"" + rest)[2..] == rest && ("\\\"" + rest)[1..2] == "\"";
  }

  /** A spelt text between double quotes, if it does not end in a backslash. */
  lemma {:induction false} SpeltReads(st: State, done: string, start: nat, s: string, tail: string)
    requires st.Running? && (s != "" ==> s[|s| - 1] != '\\')
    ensures Run(Midway(st, '"', done, start), Spelt(s) + tail) == Run(Midway(Past(st, s), '"', done + s, start), tail)
    decreases |s|
  {
    hide *;
    if s == "" {
      PastNone(st);
      SpeltNone();
      assert done + "" == done && "" + tail == tail;
    } else {
      var c, rest := s[0], s[1..];
      PastOne(st, c);
      PastCons(st, c, rest);
      LastOfRest(s);
      SpeltReads(Past(st, [c]), done + [c], start, rest, tail);
      SpeltFirst(s, tail);
      StringThen(done, [c], rest);
      assert s == [c] + rest;
      if c == '"' {
        EscapeStep(st, done, start, Spelt(rest) + tail);
      } else {
        TailHead(Spelt(rest), tail);
        QuoteStep(st, '"', done, start, c, Spelt(rest) + tail);
      }
    }
  }

  lemma SpeltNone()
    ensures Spelt("") == ""
  {
  }

  lemma LastOfRest(s: string)
    requires s != ""
    ensures s[1..] != "" ==> s[1..][|s[1..]| - 1] == s[|s| - 1]
  {
  }

  lemma TailHead(a: string, tail: string)
    ensures a != "" ==> a + tail != "" && (a + tail)[0] == a[0]
  {
  }

  lemma SpeltFirst(s: string, tail: string)
    requires s != "" && s[|s| - 1] != '\\'
    ensures Spelt(s) + tail == (if s[0] == '"' then "\\\"" else [s[0]]) + (Spelt(s[1..]) + tail)
    ensures s[0] == '\\' ==> Spelt(s[1..]) != "" && Spelt(s[1..])[0] != '"'
  {
    hide *;
    SpeltCons(s);
    StringThen(if s[0] == '"' then "\\\"" else [s[0]], Spelt(s[1..]), tail);
    if |s| > 1 { SpeltHead(s[1..]); }
  }

  lemma StringThen(a: string, b: string, c: string)
    ensures a + b + c == a + (b + c)
  {
  }

  lemma SpeltCons(s: string)
    requires s != ""
    ensures Spelt(s) == (if s[0] == '"' then "\\\"" else [s[0]]) + Spelt(s[1..])
  {
  }

  lemma SpeltHead(s: string)
    requires s != ""
    ensures Spelt(s) != "" && Spelt(s)[0] != '"'
  {
    var rest := Spelt(s[1..]);
    assert ("\\\"" + rest)[0] == '\\' && ([s[0]] + rest)[0] == s[0];
  }

  /** A text between backticks. */
  lemma {:induction false} RawReads(st: State, done: string, start: nat, s: string, tail: string)
    requires st.Running? && '`' !in s
    ensures Run(Midway(st, '`', done, start), s + tail) == Run(Midway(Past(st, s), '`', done + s, start), tail)
    decreases |s|
  {
    if s == "" {
      PastNone(st);
      assert done + "" == done && "" + tail == tail;
    } else {
      hide Run, Past;
      var c, rest := s[0], s[1..];
      PastCons(st, c, rest);
      RawReads(Past(st, [c]), done + [c], start, rest, tail);
      assert s == [c] + rest && done + [c] + rest == done + s && s + tail == [c] + (rest + tail);
      QuoteStep(st, '`', done, start, c, rest + tail);
    }
  }

  /** What may stand between two marks for this text. */
  predicate Spells(mark: Mark, body: string, s: string) {
    if mark == '"' then body == Spelt(s) && (s != "" ==> s[|s| - 1] != '\\') else body == s && '`' !in s
  }

  lemma BodyReads(st: State, mark: Mark, body: string, s: string, tail: string)
    requires AtStart(st) && Spells(mark, body, s)
    ensures Run(st, [mark] + body + tail) == Run(Midway(Past(st, s), mark, s, st.line), tail)
  {
    hide Run, Past, Spelt;
    assert [mark] + body + tail == [mark] + (body + tail) && "" + s == s;
    QuoteOpens(st, mark, body + tail);
    if mark == '"' { SpeltReads(st, "", st.line, s, tail); } else { RawReads(st, "", st.line, s, tail); }
  }

  /**
   A text in quotes is a token of exactly that text: between backticks any text without one;
   between double quotes any that does not end in a backslash, with a backslash in front of
   each double quote and of nothing else. It goes over as many lines as it has line feeds.
   */
  lemma QuotesRead(st: State, mark: Mark, body: string, s: string)
    requires AtStart(st) && Spells(mark, body, s)
    ensures var end := st.line + LineFeeds(s);
      Run(st, [mark] + body + [mark]) ==
        Running(Between, end, st.tokens + [Token(s, true, st.line, end)],
                st.continuation + Begun(st.line, LineFeeds(s)))
  {
    hide Spells, Run, IsSpace, LineFeeds, Begun;
    BodyReads(st, mark, body, s, [mark]);
    assert [mark] + "" == [mark];
    RunOne(Midway(Past(st, s), mark, s, st.line), mark, "");
    RunOut(EndToken(Midway(Past(st, s), mark, s, st.line)));
  }

  lemma RunOut(st: State)
    ensures Run(st, "") == st
  {
  }

  /** Right behind the closing quote only white space may follow. */
  lemma GluedRefused(st: State, mark: Mark, body: string, s: string, c: char, rest: string)
    requires AtStart(st) && Spells(mark, body, s) && !IsSpace(c)
    ensures Run(st, [mark] + body + ([mark, c] + rest)) == Failed(st.line + LineFeeds(s), GluedQuote)
  {
    hide Spells, IsSpace, Run, LineFeeds, Begun;
    var tail := [c] + rest;
    BodyReads(st, mark, body, s, [mark, c] + rest);
    assert [mark, c] + rest == [mark] + tail;
    RunOne(Midway(Past(st, s), mark, s, st.line), mark, tail);
    FailedStays(Failed(st.line + LineFeeds(s), GluedQuote), tail);
  }

  /** A quote that is not closed is refused at the line it starts on. */
  lemma UnterminatedRefused(st: State, mark: Mark, body: string, s: string)
    requires AtStart(st) && Spells(mark, body, s)
    ensures Finish(Run(st, [mark] + body)) == Bad(st.line, Unterminated)
  {
    hide Spells, Run, LineFeeds, Begun;
    BodyReads(st, mark, body, s, "");
    RunOut(Midway(Past(st, s), mark, s, st.line));
    assert [mark] + body + "" == [mark] + body;
  }

  // ---- What is refused -------------------------------------------------------------

  lemma {:induction false} FailedStays(st: State, s: string)
    requires st.Failed?
    ensures Run(st, s) == st
  {
  }

  /** A backslash or a quote in a word, wherever it stands and whatever follows. */
  lemma RefusedInWord(st: State, word: string, c: char, rest: string)
    requires AtStart(st) && IsWord(word) && c in "\\\"`"
    ensures Run(st, word + [c] + rest) == Failed(st.line, if c == '\\' then Backslash else QuoteInWord)
  {
    var s := word + [c] + rest;
    if |word| >= 2 { assert s[..2] == word[..2]; } else { assert s[1] == c; }
    WordStarts(st, s);
    RefusedGrowing(st.(mode := Word([s[0]], st.line)), [s[0]], st.line, word[1..], c, rest);
    assert s[1..] == word[1..] + [c] + rest;
  }

  lemma {:induction false} RefusedGrowing(st: State, done: string, start: nat, word: string, c: char, rest: string)
    requires st.Running? && st.mode == Word(done, start) && c in "\\\"`"
    requires forall i :: 0 <= i < |word| ==> InWord(word[i])
    ensures Run(st, word + [c] + rest) == Failed(st.line, if c == '\\' then Backslash else QuoteInWord)
    decreases |word|
  {
    var s := word + [c] + rest;
    if word == "" {
      assert s[0] == c;
      FailedStays(Step(st, c, Peek(s)), s[1..]);
    } else {
      assert s[1..] == word[1..] + [c] + rest && s[0] == word[0];
      RefusedGrowing(st.(mode := Word(done + [word[0]], start)), done + [word[0]], start, word[1..], c, rest);
    }
  }

  /** A word that starts with a backslash, or with what opens a heredoc. */
  lemma RefusedAtStart(st: State, rest: string)
    requires AtStart(st)
    ensures Run(st, "\\" + rest) == Failed(st.line, Backslash)
    ensures Run(st, "<<" + rest) == Failed(st.line, Heredoc)
  {
    assert ("<<" + rest)[1..2] == "<";
    FailedStays(Failed(st.line, Backslash), ("\\" + rest)[1..]);
    FailedStays(Failed(st.line, Heredoc), ("<<" + rest)[1..]);
  }
}
