/**
 The tokenizer of custom Caddy fragments (`lex` in staticRouting.ts).

 `Run` is the tokenizer as a fold over characters; the method `Lex` is the source's
 loop, proved equal to it. The lemmas say what the rest of the model relies on:
 a line feed is the only place where one line can affect the next (`RunBreak`).
 */
module CaddyLexer {
  import opened Text

  datatype Token = Token(text: string, quoted: bool, line: nat, endLine: nat)

  type Mark = c: char | c == '"' || c == '`' witness '"'

  datatype Mode =
    | Between
    | Word(text: string, start: nat)
    | Quote(mark: Mark, text: string, start: nat)
    | Comment

  datatype LexError = GluedQuote | Unterminated | Heredoc | Backslash | QuoteInWord

  /** Where the tokenizer is. `continuation` holds the 0-based lines that begin inside a quote. */
  datatype State =
    | Running(mode: Mode, line: nat, tokens: seq<Token>, continuation: set<nat>)
    | Failed(at: nat, error: LexError)

  datatype Lexed =
    | Tokens(tokens: seq<Token>, continuation: set<nat>)
    | Bad(at: nat, error: LexError)

  const START := Running(Between, 1, [], {})

  /** The four characters that separate tokens. */
  predicate IsLexSpace(c: char) {
    c == ' ' || c == '\t' || c == '\r' || c == '\n'
  }

  /** The lookahead: the character after the first one, if there is one. */
  function Peek(s: string): string {
    if |s| >= 2 then s[1..2] else ""
  }

  /** A backslash-quote pair inside double quotes, read as one character. */
  predicate Escapes(mode: Mode, c: char, next: string) {
    mode.Quote? && mode.mark == '"' && c == '\\' && next == "\""
  }

  function Escaped(st: State): State
    requires st.Running? && st.mode.Quote?
  {
    st.(mode := Quote(st.mode.mark, st.mode.text + "\"", st.mode.start))
  }

  /** Ends the token in progress, if any. */
  function EndToken(st: State): State
    requires st.Running?
  {
    match st.mode
    case Word(text, start) => st.(mode := Between, tokens := st.tokens + [Token(text, false, start, st.line)])
    case Quote(_, text, start) => st.(mode := Between, tokens := st.tokens + [Token(text, true, start, st.line)])
    case _ => st.(mode := Between)
  }

  function Newline(st: State): State
    requires st.Running?
  {
    st.(line := st.line + 1)
  }

  function StepQuote(st: State, c: char, next: string): State
    requires st.Running? && st.mode.Quote?
  {
    if c == st.mode.mark then
      if next != "" && !IsSpace(next[0]) then Failed(st.line, GluedQuote) else EndToken(st)
    else
      var grown := st.(mode := Quote(st.mode.mark, st.mode.text + [c], st.mode.start));
      if c == '\n' then grown.(line := st.line + 1, continuation := st.continuation + {st.line}) else grown
  }

  function StepWord(st: State, text: string, start: nat, c: char): State
    requires st.Running?
  {
    if c == '\\' then Failed(st.line, Backslash)
    else if c == '"' || c == '`' then Failed(st.line, QuoteInWord)
    else st.(mode := Word(text + [c], start))
  }

  /** One character outside an escape. */
  function Step(st: State, c: char, next: string): State {
    if st.Failed? then st
    else if st.mode.Quote? then StepQuote(st, c, next)
    else if st.mode.Comment? then
      if c == '\n' then Newline(EndToken(st)) else st
    else if IsLexSpace(c) then
      if c == '\n' then Newline(EndToken(st)) else EndToken(st)
    else if st.mode.Word? then StepWord(st, st.mode.text, st.mode.start, c)
    else if c == '#' then st.(mode := Comment)
    else if c == '"' || c == '`' then st.(mode := Quote(c, "", st.line))
    else if c == '<' && next == "<" then Failed(st.line, Heredoc)
    else StepWord(st, "", st.line, c)
  }

  function Run(st: State, s: string): State
    decreases |s|
  {
    if st.Failed? || s == "" then st
    else if Escapes(st.mode, s[0], Peek(s)) then
      Run(Escaped(st), s[2..])
    else
      Run(Step(st, s[0], Peek(s)), s[1..])
  }

  function Finish(st: State): Lexed {
    if st.Failed? then Bad(st.at, st.error)
    else if st.mode.Quote? then Bad(st.mode.start, Unterminated)
    else
      var done := EndToken(st);
      Tokens(done.tokens, done.continuation)
  }

  function LexOf(s: string): Lexed {
    Finish(Run(START, s))
  }

  // ---- The loop of the source --------------------------------------------------

  /** Skips to the last character before the next line feed, from inside a comment. */
  method SkipComment(input: string, from: nat, ghost st: State) returns (i: nat)
    requires from < |input| && st.Running? && st.mode.Comment?
    ensures from <= i < |input|
    ensures Run(st, input[from + 1..]) == Run(st, input[i + 1..])
    ensures i + 1 < |input| ==> input[i + 1] == '\n'
  {
    i := from;
    while i + 1 < |input| && input[i + 1] != '\n'
      invariant from <= i < |input|
      invariant Run(st, input[from + 1..]) == Run(st, input[i + 1..])
    {
      assert input[i + 1..][1..] == input[i + 2..];
      i := i + 1;
    }
  }

  /** The source's loop: index, line counter, token text and open quote as variables. */
  method Lex(input: string) returns (result: Lexed)
    ensures result == LexOf(input)
  {
    var tokens: seq<Token>, continuation: set<nat> := [], {};
    var line, text, inToken := 1, "", false;
    var quote: string, tokenLine := "", 1;
    var i := 0;
    ghost var st := START;
    while i < |input|
      invariant 0 <= i <= |input|
      invariant quote in ["", "\"", "`"] && (inToken || (quote == "" && text == ""))
      invariant st == Running(
                        if !inToken then Between else if quote == "" then Word(text, tokenLine)
                          else Quote(quote[0], text, tokenLine),
                        line, tokens, continuation)
      invariant LexOf(input) == Finish(Run(st, input[i..]))
    {
      var ch := input[i];
      var next := if i + 1 < |input| then [input[i + 1]] else "";
      assert input[i..][0] == ch && Peek(input[i..]) == next && input[i..][1..] == input[i + 1..];
      assert i + 1 < |input| ==> input[i..][2..] == input[i + 2..];
      ghost var stepped := Step(st, ch, next);
      if quote != "" {
        if quote == "\"" && ch == '\\' && next == "\"" {
          text := text + "\"";
          i := i + 2;
          st := st.(mode := Quote(quote[0], text, tokenLine));
          continue;
        }
        if ch == '\n' {
          line := line + 1;
          continuation := continuation + {line - 1};
        }
        if ch == quote[0] {
          if next != "" && !IsSpace(next[0]) {
            return Bad(line, GluedQuote);
          }
          tokens := tokens + [Token(text, true, tokenLine, line)];
          quote, text, inToken := "", "", false;
        } else {
          text := text + [ch];
        }
      } else if ch == '\n' || ch == ' ' || ch == '\t' || ch == '\r' {
        if inToken {
          tokens := tokens + [Token(text, false, tokenLine, line)];
        }
        text, inToken := "", false;
        if ch == '\n' {
          line := line + 1;
        }
      } else if !inToken && ch == '#' {
        var j := SkipComment(input, i, stepped);
        CommentEnds(stepped, input[j + 1..]);
        i, stepped := j, st;
      } else if !inToken && (ch == '"' || ch == '`') {
        quote, tokenLine, inToken := [ch], line, true;
      } else {
        if !inToken {
          if ch == '<' && next == "<" {
            return Bad(line, Heredoc);
          }
          tokenLine, inToken := line, true;
        }
        if ch == '\\' {
          return Bad(line, Backslash);
        }
        if ch == '"' || ch == '`' {
          return Bad(line, QuoteInWord);
        }
        text := text + [ch];
      }
      i := i + 1;
      st := stepped;
    }
    assert input[i..] == "";
    if quote != "" {
      return Bad(tokenLine, Unterminated);
    }
    if inToken {
      tokens := tokens + [Token(text, false, tokenLine, line)];
    }
    return Tokens(tokens, continuation);
  }

  /** The source has no comment mode: at the end of a comment it is between tokens again. */
  lemma CommentEnds(st: State, rest: string)
    requires st.Running? && st.mode.Comment?
    requires rest != "" ==> rest[0] == '\n'
    ensures Finish(Run(st, rest)) == Finish(Run(st.(mode := Between), rest))
  {
  }
}
