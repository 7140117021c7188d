/** Strings as the server's JavaScript sees them: white space, trimming, and lines. */
module Text {

  /** What `\s` and `trim` call white space. */
  predicate IsSpace(c: char) {
    || c == ' ' || '\t' <= c <= '\r'
    || c == '\U{A0}' || c == '\U{1680}' || '\U{2000}' <= c <= '\U{200A}' || c == '\U{2028}' || c == '\U{2029}'
    || c == '\U{202F}' || c == '\U{205F}' || c == '\U{3000}' || c == '\U{FEFF}'
  }

  predicate AllSpace(s: string) {
    forall c <- s :: IsSpace(c)
  }

  function TrimStart(s: string): string {
    if s != "" && IsSpace(s[0]) then TrimStart(s[1..]) else s
  }

  function TrimEnd(s: string): string {
    if s != "" && IsSpace(s[|s| - 1]) then TrimEnd(s[..|s| - 1]) else s
  }

  /** Trimming the start drops white space up to the first character that is none. */
  lemma {:induction false} TrimStartDrops(s: string)
    ensures var r := TrimStart(s);
      && |r| <= |s| && r == s[|s| - |r|..] && AllSpace(s[..|s| - |r|])
      && (r != "" ==> !IsSpace(r[0]))
  {
    hide IsSpace;
    if s != "" && IsSpace(s[0]) {
      TrimStartDrops(s[1..]);
      var r := TrimStart(s);
      assert s[..|s| - |r|] == [s[0]] + s[1..][..|s| - 1 - |r|];
    }
  }

  lemma {:induction false} TrimEndDrops(s: string)
    ensures var r := TrimEnd(s);
      && |r| <= |s| && r == s[..|r|] && AllSpace(s[|r|..])
      && (r != "" ==> !IsSpace(r[|r| - 1]))
  {
    hide IsSpace;
    if s != "" && IsSpace(s[|s| - 1]) {
      TrimEndDrops(s[..|s| - 1]);
      var r := TrimEnd(s);
      assert s[|r|..] == s[..|s| - 1][|r|..] + [s[|s| - 1]];
    }
  }

  /** The white space that `TrimStart` drops. */
  function LeadingSpace(s: string): string {
    if s != "" && IsSpace(s[0]) then [s[0]] + LeadingSpace(s[1..]) else ""
  }

  /** The white space that `TrimEnd` drops. */
  function TrailingSpace(s: string): string {
    if s != "" && IsSpace(s[|s| - 1]) then TrailingSpace(s[..|s| - 1]) + [s[|s| - 1]] else ""
  }

  lemma {:induction false} LeadAndRest(s: string)
    ensures s == LeadingSpace(s) + TrimStart(s) && AllSpace(LeadingSpace(s))
  {
    hide IsSpace;
    if s != "" && IsSpace(s[0]) {
      LeadAndRest(s[1..]);
      assert s == [s[0]] + s[1..];
    }
  }

  lemma {:induction false} RestAndTrail(s: string)
    ensures s == TrimEnd(s) + TrailingSpace(s) && AllSpace(TrailingSpace(s))
  {
    hide IsSpace;
    if s != "" && IsSpace(s[|s| - 1]) {
      RestAndTrail(s[..|s| - 1]);
      assert s == s[..|s| - 1] + [s[|s| - 1]];
    }
  }

  function Trim(s: string): string {
    TrimEnd(TrimStart(s))
  }

  /** Trimming leaves nothing exactly when there is nothing but white space. */
  lemma TrimBlank(s: string)
    ensures Trim(s) == "" <==> AllSpace(s)
  {
    var t := TrimStart(s);
    TrimStartDrops(s);
    TrimEndDrops(t);
    hide IsSpace, TrimStart, TrimEnd;
    assert s == s[..|s| - |t|] + t;
    if TrimEnd(t) == "" {
      assert t == t[0..];
    }
  }

  /** A string with no white space at either end is its own trim. */
  lemma TrimTight(s: string)
    requires s != "" ==> !IsSpace(s[0]) && !IsSpace(s[|s| - 1])
    ensures Trim(s) == s
  {
  }

  /** Behind a character that is no white space the end is trimmed on its own. */
  lemma {:induction false} TrimEndAfter(a: string, b: string)
    requires a != "" && !IsSpace(a[|a| - 1])
    ensures TrimEnd(a + b) == a + TrimEnd(b)
    decreases |b|
  {
    hide IsSpace;
    if b == "" {
      assert a + b == a;
    } else if IsSpace(b[|b| - 1]) {
      assert (a + b)[..|a + b| - 1] == a + b[..|b| - 1];
      TrimEndAfter(a, b[..|b| - 1]);
    }
  }

  /** `text.split(sep)`. */
  function Split(s: string, sep: char := '\n'): (parts: seq<string>)
    ensures |parts| >= 1
    ensures forall part <- parts :: sep !in part
  {
    if s == "" then [""]
    else
      var rest := Split(s[1..], sep);
      if s[0] == sep then [""] + rest else [[s[0]] + rest[0]] + rest[1..]
  }

  /** `parts.join(sep)`. */
  function Join(parts: seq<string>, sep: char := '\n'): string {
    if |parts| == 0 then ""
    else if |parts| == 1 then parts[0]
    else parts[0] + [sep] + Join(parts[1..], sep)
  }

  lemma {:induction false} JoinSplit(s: string, sep: char := '\n')
    ensures Join(Split(s, sep), sep) == s
  {
    if s != "" {
      JoinSplit(s[1..], sep);
      var rest := Split(s[1..], sep);
      if s[0] == sep {
        assert Split(s, sep)[1..] == rest;
      } else if |rest| > 1 {
        assert Split(s, sep)[1..] == rest[1..];
      }
    }
  }

  lemma {:induction false} SplitPart(part: string, rest: string, sep: char := '\n')
    requires sep !in part
    ensures Split(part, sep) == [part]
    ensures Split(part + [sep] + rest, sep) == [part] + Split(rest, sep)
  {
    if part == "" {
      assert (part + [sep] + rest)[1..] == rest;
    } else {
      SplitPart(part[1..], rest, sep);
      assert (part + [sep] + rest)[1..] == part[1..] + [sep] + rest;
      assert [part[0]] + part[1..] == part;
    }
  }

  lemma {:induction false} SplitJoin(parts: seq<string>, sep: char := '\n')
    requires |parts| >= 1 && forall part <- parts :: sep !in part
    ensures Split(Join(parts, sep), sep) == parts
  {
    hide Split;
    assert parts == [parts[0]] + parts[1..];
    if |parts| == 1 {
      SplitPart(parts[0], "", sep);
    } else {
      var rest := Join(parts[1..], sep);
      SplitPart(parts[0], rest, sep);
      SplitJoin(parts[1..], sep);
    }
  }

  /** `text.replace(/\r\n/g, "\n")`. */
  function DropCr(s: string): string {
    if |s| >= 2 && s[0] == '\r' && s[1] == '\n' then "\n" + DropCr(s[2..])
    else if s == "" then ""
    else [s[0]] + DropCr(s[1..])
  }

  /** `toLowerCase` of one character: the letters A to Z, and the Kelvin sign, which lowers to a `k`. */
  function LowerChar(c: char): char {
    if 'A' <= c <= 'Z' then (c as int + 32) as char
    else if c as int == 0x212A then 'k'
    else c
  }

  function ToLower(s: string): (r: string)
    ensures |r| == |s| && forall i :: 0 <= i < |s| ==> r[i] == LowerChar(s[i])
  {
    if s == "" then "" else [LowerChar(s[0])] + ToLower(s[1..])
  }

  lemma LowerAlphabet(i: nat)
    requires i < 26
    ensures LowerChar("ABCDEFGHIJKLMNOPQRSTUVWXYZ"[i]) == "abcdefghijklmnopqrstuvwxyz"[i]
  {
  }

  /** `hostname.startsWith("*.")` */
  predicate IsWildcard(hostname: string) {
    "*." <= hostname
  }

  /** `indexOf(c)`, or the length if there is none. */
  function IndexOfChar(s: string, c: char): (r: nat)
    ensures r <= |s| && (r < |s| ==> s[r] == c)
    ensures forall i :: 0 <= i < r ==> s[i] != c
  {
    if s == "" || s[0] == c then 0 else 1 + IndexOfChar(s[1..], c)
  }

  lemma {:induction false} IndexOver(a: string, b: string, c: char)
    requires c !in a
    ensures IndexOfChar(a + b, c) == |a| + IndexOfChar(b, c)
  {
    if a == "" {
      assert a + b == b;
    } else {
      assert (a + b)[1..] == a[1..] + b;
      IndexOver(a[1..], b, c);
    }
  }
}
