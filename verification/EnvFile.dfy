/**
 Editing one variable of a `.env` text (envFile.ts), and the reader it must agree with
 (`parseEnvString`, deployment.ts).

 The reader is the meaning of a text: a map from names to values. Setting and unsetting a
 variable are proved to be an update and a removal in that map.
 */
module EnvFile {
  import opened Wrappers
  import opened Text

  datatype EnvError = BadName | LineBreak

  datatype Edit<+T> = Done(value: T) | Failed(error: EnvError)

  // ---- Lines -----------------------------------------------------------------------

  predicate IsLetter(c: char) {
    'A' <= c <= 'Z' || 'a' <= c <= 'z' || c == '_'
  }

  /** `ENV_NAME_REGEX` */
  predicate IsName(s: string) {
    && s != "" && IsLetter(s[0])
    && forall i :: 0 <= i < |s| ==> IsLetter(s[i]) || '0' <= s[i] <= '9'
  }

  /** `.replace(/^export\s+/, "")` */
  function DropExport(s: string): string {
    if |s| > 6 && s[..6] == "export" && IsSpace(s[6]) then TrimStart(s[6..]) else s
  }

  /** `envLineKey` */
  function LineKey(line: string): Option<string> {
    var trimmed := Trim(line);
    if trimmed == "" || trimmed[0] == '#' || IndexOfChar(trimmed, '=') == |trimmed| then None
    else
      var key := Trim(DropExport(trimmed[..IndexOfChar(trimmed, '=')]));
      if key == "" then None else Some(key)
  }

  /** `unquoteEnvValue`; `slice(1, -1)` of a lone quote is empty. */
  function Unquote(val: string): string {
    if val != "" && val[0] == val[|val| - 1] && (val[0] == '"' || val[0] == '\'') then
      if |val| == 1 then "" else val[1..|val| - 1]
    else val
  }

  function LineValue(line: string): string {
    var trimmed := Trim(line);
    var eq := IndexOfChar(trimmed, '=');
    if eq == |trimmed| then "" else Unquote(Trim(trimmed[eq + 1..]))
  }

  const PROTO := "__proto__"

  /** What a line assigns. Assigning a text to `__proto__` of a plain object does nothing. */
  function LineMap(line: string): map<string, string> {
    var key := LineKey(line);
    if key.None? || key.value == PROTO then map[] else map[key.value := LineValue(line)]
  }

  // ---- The reader ------------------------------------------------------------------

  function ParseLines(lines: seq<string>): map<string, string> {
    if lines == [] then map[] else LineMap(lines[0]) + ParseLines(lines[1..])
  }

  function Parse(raw: string): map<string, string> {
    ParseLines(Split(raw))
  }

  lemma {:induction false} ParseAppend(a: seq<string>, b: seq<string>)
    ensures ParseLines(a + b) == ParseLines(a) + ParseLines(b)
  {
    hide LineMap;
    if a == [] {
      assert a + b == b;
    } else {
      ParseAppend(a[1..], b);
      assert (a + b)[1..] == a[1..] + b;
      MapAssoc(LineMap(a[0]), ParseLines(a[1..]), ParseLines(b));
    }
  }

  lemma ParseOne(line: string)
    ensures ParseLines([line]) == LineMap(line)
  {
  }

  lemma ParseNothing()
    ensures ParseLines([]) == map[]
  {
  }

  lemma ParseNext(lines: seq<string>, i: nat)
    requires i < |lines|
    ensures ParseLines(lines[..i + 1]) == ParseLines(lines[..i]) + LineMap(lines[i])
  {
    hide LineMap;
    ParseAppend(lines[..i], [lines[i]]);
    ParseOne(lines[i]);
    assert lines[..i] + [lines[i]] == lines[..i + 1];
  }

  /** `parseEnvString` */
  method ParseEnvString(raw: string) returns (vars: map<string, string>)
    ensures vars == Parse(raw)
  {
    hide LineKey, LineValue, ParseLines, Split;
    vars := map[];
    ParseNothing();
    var lines := Split(raw);
    for i := 0 to |lines|
      invariant vars == ParseLines(lines[..i])
    {
      ParseNext(lines, i);
      var key := LineKey(lines[i]);
      if key.Some? && key.value != PROTO {
        vars := vars[key.value := LineValue(lines[i])];
      }
    }
    assert lines[..|lines|] == lines;
  }

  // ---- The editor ------------------------------------------------------------------

  predicate HasBreak(value: string) {
    '\r' in value || '\n' in value
  }

  /** `encodeValue` of a value with no line break. */
  function Encode(value: string): string {
    if value != Trim(value) || Unquote(value) != value then "'" + value + "'" else value
  }

  function Assignment(name: string, value: string): string {
    name + "=" + Encode(value)
  }

  function Lines(raw: string): seq<string> {
    if raw == "" then [] else Split(raw)
  }

  function Without(lines: seq<string>, name: string): seq<string> {
    if lines == [] then []
    else (if LineKey(lines[0]) == Some(name) then [] else [lines[0]]) + Without(lines[1..], name)
  }

  /** The first assignment of `name` replaced, and its repeats dropped. */
  function Replaced(lines: seq<string>, name: string, assignment: string): seq<string> {
    if lines == [] then []
    else if LineKey(lines[0]) == Some(name) then [assignment] + Without(lines[1..], name)
    else [lines[0]] + Replaced(lines[1..], name, assignment)
  }

  predicate Assigns(lines: seq<string>, name: string) {
    exists i :: 0 <= i < |lines| && LineKey(lines[i]) == Some(name)
  }

  function DropBlankTail(lines: seq<string>): seq<string> {
    if lines != [] && Trim(lines[|lines| - 1]) == "" then DropBlankTail(lines[..|lines| - 1]) else lines
  }

  function SetLines(lines: seq<string>, name: string, value: string): seq<string> {
    if Assigns(lines, name) then Replaced(lines, name, Assignment(name, value))
    else DropBlankTail(lines) + [Assignment(name, value)]
  }

  function Set(raw: string, name: string, value: string): Edit<string> {
    if !IsName(name) then Failed(BadName)
    else if HasBreak(value) then Failed(LineBreak)
    else Done(Join(SetLines(Lines(raw), name, value)))
  }

  datatype Unset = Unset(envVars: string, removed: bool)

  /** `unsetEnvVar` */
  function UnsetEnvVar(raw: string, name: string): Edit<Unset> {
    if !IsName(name) then Failed(BadName)
    else
      var all := Lines(raw);
      var kept := Without(all, name);
      Done(Unset(Join(kept), |kept| != |all|))
  }

  lemma {:induction false} NotAssigned(lines: seq<string>, name: string, assignment: string)
    requires !Assigns(lines, name)
    ensures Replaced(lines, name, assignment) == lines && Without(lines, name) == lines
  {
    hide LineKey;
    if lines != [] {
      assert LineKey(lines[0]) != Some(name);
      assert forall i :: 0 <= i < |lines[1..]| ==> lines[1..][i] == lines[i + 1];
      NotAssigned(lines[1..], name, assignment);
    }
  }

  lemma AssignsNext(lines: seq<string>, i: nat, name: string)
    requires i < |lines|
    ensures Assigns(lines[..i + 1], name) <==> Assigns(lines[..i], name) || LineKey(lines[i]) == Some(name)
    ensures lines[..i + 1] == lines[..i] + [lines[i]]
  {
    hide LineKey;
    if Assigns(lines[..i], name) {
      var k :| 0 <= k < |lines[..i]| && LineKey(lines[..i][k]) == Some(name);
      assert LineKey(lines[..i + 1][k]) == Some(name);
    }
    if LineKey(lines[i]) == Some(name) { assert LineKey(lines[..i + 1][i]) == Some(name); }
    if Assigns(lines[..i + 1], name) && LineKey(lines[i]) != Some(name) {
      var k :| 0 <= k < |lines[..i + 1]| && LineKey(lines[..i + 1][k]) == Some(name);
      assert LineKey(lines[..i][k]) == Some(name);
    }
  }

  lemma Unfold(lines: seq<string>, i: nat, name: string, assignment: string)
    requires i < |lines|
    ensures LineKey(lines[i]) == Some(name) ==>
              && Without(lines[i..], name) == Without(lines[i + 1..], name)
              && Replaced(lines[i..], name, assignment) == [assignment] + Without(lines[i + 1..], name)
    ensures LineKey(lines[i]) != Some(name) ==>
              && Without(lines[i..], name) == [lines[i]] + Without(lines[i + 1..], name)
              && Replaced(lines[i..], name, assignment) == [lines[i]] + Replaced(lines[i + 1..], name, assignment)
  {
    hide LineKey;
    assert lines[i..][1..] == lines[i + 1..];
  }

  /** The lines written so far, with what the remaining ones will give, are the replaced text. */
  ghost predicate Midway(out: seq<string>, lines: seq<string>, i: nat, name: string, assignment: string, replaced: bool)
    requires i <= |lines|
  {
    && (replaced <==> Assigns(lines[..i], name))
    && (!replaced ==> out == lines[..i])
    && out + (if replaced then Without(lines[i..], name) else Replaced(lines[i..], name, assignment))
       == Replaced(lines, name, assignment)
  }

  lemma MidwayStart(lines: seq<string>, name: string, assignment: string)
    ensures Midway([], lines, 0, name, assignment, false)
  {
    assert lines[..0] == [] && lines[0..] == lines;
  }

  lemma MidwayKeeps(out: seq<string>, lines: seq<string>, i: nat, name: string, assignment: string, replaced: bool)
    requires i < |lines| && Midway(out, lines, i, name, assignment, replaced) && LineKey(lines[i]) != Some(name)
    ensures Midway(out + [lines[i]], lines, i + 1, name, assignment, replaced)
  {
    hide LineKey, Assigns, Without, Replaced;
    AssignsNext(lines, i, name);
    Unfold(lines, i, name, assignment);
    var rest := if replaced then Without(lines[i + 1..], name) else Replaced(lines[i + 1..], name, assignment);
    assert out + ([lines[i]] + rest) == out + [lines[i]] + rest;
  }

  lemma MidwayReplaces(out: seq<string>, lines: seq<string>, i: nat, name: string, assignment: string)
    requires i < |lines| && Midway(out, lines, i, name, assignment, false) && LineKey(lines[i]) == Some(name)
    ensures Midway(out + [assignment], lines, i + 1, name, assignment, true)
  {
    hide LineKey, Assigns, Without, Replaced;
    AssignsNext(lines, i, name);
    Unfold(lines, i, name, assignment);
    var rest := Without(lines[i + 1..], name);
    assert out + ([assignment] + rest) == out + [assignment] + rest;
  }

  lemma MidwayDrops(out: seq<string>, lines: seq<string>, i: nat, name: string, assignment: string)
    requires i < |lines| && Midway(out, lines, i, name, assignment, true) && LineKey(lines[i]) == Some(name)
    ensures Midway(out, lines, i + 1, name, assignment, true)
  {
    hide LineKey, Assigns, Without, Replaced;
    AssignsNext(lines, i, name);
    Unfold(lines, i, name, assignment);
  }

  lemma MidwayEnd(out: seq<string>, lines: seq<string>, name: string, assignment: string, replaced: bool)
    requires Midway(out, lines, |lines|, name, assignment, replaced)
    ensures replaced <==> Assigns(lines, name)
    ensures out == if replaced then Replaced(lines, name, assignment) else lines
  {
    hide LineKey;
    assert lines[..|lines|] == lines && lines[|lines|..] == [];
  }

  /** `setEnvVar` */
  method SetEnvVar(raw: string, name: string, value: string) returns (r: Edit<string>)
    ensures r == Set(raw, name, value)
  {
    hide LineKey, IsName, HasBreak, Trim, Assignment, Midway, Lines, Assigns, Replaced, Join;
    if !IsName(name) { return Failed(BadName); }
    if HasBreak(value) { return Failed(LineBreak); }
    var assignment := Assignment(name, value);
    var lines := Lines(raw);
    var out: seq<string> := [];
    var replaced := false;
    MidwayStart(lines, name, assignment);
    for i := 0 to |lines|
      invariant Midway(out, lines, i, name, assignment, replaced)
    {
      if LineKey(lines[i]) != Some(name) {
        MidwayKeeps(out, lines, i, name, assignment, replaced);
        out := out + [lines[i]];
      } else if !replaced {
        MidwayReplaces(out, lines, i, name, assignment);
        out := out + [assignment];
        replaced := true;
      } else {
        MidwayDrops(out, lines, i, name, assignment);
      }
    }
    MidwayEnd(out, lines, name, assignment, replaced);
    if !replaced {
      while out != [] && Trim(out[|out| - 1]) == ""
        invariant DropBlankTail(out) == DropBlankTail(lines)
      {
        out := out[..|out| - 1];
      }
      out := out + [assignment];
    }
    r := Done(Join(out));
  }

  // ---- An assignment reads back ----------------------------------------------------

  lemma QuotedReadsBack(value: string)
    ensures var quoted := "'" + value + "'"; Trim(quoted) == quoted && Unquote(quoted) == value
  {
    var quoted := "'" + value + "'";
    assert quoted[1..|quoted| - 1] == value;
    assert !IsSpace('\'');
    hide Trim, IsSpace;
    assert quoted[0] == '\'' && quoted[|quoted| - 1] == '\'';
    TrimTight(quoted);
  }

  /** What is written for a value is tight, and loses exactly its quotes. */
  lemma EncodeReadsBack(value: string)
    ensures Trim(Encode(value)) == Encode(value) && Unquote(Encode(value)) == value
  {
    hide Trim, Unquote;
    QuotedReadsBack(value);
  }

  lemma NameChars(name: string)
    requires IsName(name)
    ensures '=' !in name && name[0] != '#' && (forall i :: 0 <= i < |name| ==> !IsSpace(name[i]))
  {
    forall i | 0 <= i < |name| ensures name[i] != '=' && !IsSpace(name[i]) {
      NameChar(name[i]);
    }
  }

  lemma NameChar(c: char)
    requires IsLetter(c) || '0' <= c <= '9'
    ensures c != '=' && !IsSpace(c)
  {
  }

  /** A text that ends where trimming would stop is tight. */
  lemma TightEnd(s: string)
    requires Trim(s) == s
    ensures s != "" ==> !IsSpace(s[|s| - 1])
  {
    hide IsSpace, TrimStart, TrimEnd;
    TrimEndDrops(TrimStart(s));
  }

  lemma AssignmentTight(name: string, value: string)
    requires IsName(name)
    ensures Trim(Assignment(name, value)) == Assignment(name, value)
  {
    var enc := Encode(value);
    var line := name + "=" + enc;
    NameChars(name);
    EncodeReadsBack(value);
    TightEnd(enc);
    assert !IsSpace('=');
    hide IsSpace, Encode, IsName;
    assert line[0] == name[0];
    assert line[|line| - 1] == if enc == "" then '=' else enc[|enc| - 1];
    TrimTight(line);
  }

  lemma NameIsKey(name: string)
    requires IsName(name)
    ensures Trim(DropExport(name)) == name
  {
    NameChars(name);
    assert DropExport(name) == name;
    hide DropExport, IsName, Trim, IsSpace;
    TrimTight(name);
  }

  lemma EqFirst(name: string, enc: string)
    ensures IndexOfChar("=" + enc, '=') == 0 && name + ("=" + enc) == name + "=" + enc
  {
  }

  lemma TightLine(line: string, name: string, enc: string)
    requires name != "" && name[0] != '#' && line == name + "=" + enc
    requires Trim(line) == line && IndexOfChar(line, '=') == |name|
    requires Trim(DropExport(name)) == name
    ensures LineKey(line) == Some(name) && LineValue(line) == Unquote(Trim(enc))
  {
    hide Trim, IndexOfChar, Unquote, DropExport;
    assert line[0] == name[0] && line[..|name|] == name && line[|name| + 1..] == enc;
  }

  /** The line written for a variable is read as that variable, with exactly that value. */
  lemma AssignmentReadsBack(name: string, value: string)
    requires IsName(name)
    ensures LineKey(Assignment(name, value)) == Some(name)
    ensures LineValue(Assignment(name, value)) == value
  {
    NameChars(name);
    hide Trim, IndexOfChar, Encode, Unquote, IsSpace, DropExport, LineKey, LineValue;
    AssignmentTight(name, value);
    NameIsKey(name);
    IndexOver(name, "=" + Encode(value), '=');
    EqFirst(name, Encode(value));
    EncodeReadsBack(value);
    TightLine(Assignment(name, value), name, Encode(value));
  }

  lemma NoBreakInName(name: string)
    requires IsName(name)
    ensures '\n' !in name
  {
  }

  lemma AssignmentOneLine(name: string, value: string)
    requires IsName(name) && !HasBreak(value)
    ensures '\n' !in Assignment(name, value)
  {
    NoBreakInName(name);
    hide IsName, Trim, Unquote;
  }

  // ---- Setting is an update, unsetting a removal -----------------------------------

  lemma MapLess(m: map<string, string>, n: map<string, string>, name: string)
    ensures m + n - {name} == (m - {name}) + (n - {name})
    ensures m + (n - {name} + map[]) == m + (n - {name})
    ensures map[] + m == m == m + map[]
  {
  }

  lemma MapAssoc(a: map<string, string>, b: map<string, string>, c: map<string, string>)
    ensures a + (b + c) == a + b + c
  {
  }

  lemma LineMapLess(line: string, name: string)
    ensures LineMap(line) - {name} == if LineKey(line) == Some(name) then map[] else LineMap(line)
  {
    hide LineKey, LineValue;
  }

  lemma ParseCons(line: string, rest: seq<string>)
    ensures ParseLines([line] + rest) == LineMap(line) + ParseLines(rest)
  {
    hide LineMap;
    assert ([line] + rest)[1..] == rest;
  }

  lemma {:induction false} ParseWithout(lines: seq<string>, name: string)
    ensures ParseLines(Without(lines, name)) == ParseLines(lines) - {name}
  {
    hide LineKey, LineMap;
    if lines != [] {
      var head, rest := lines[0], lines[1..];
      ParseWithout(rest, name);
      ParseCons(head, Without(rest, name));
      LineMapLess(head, name);
      MapLess(LineMap(head), ParseLines(rest), name);
      MapLess(ParseLines(rest) - {name}, map[], name);
      assert [] + Without(rest, name) == Without(rest, name);
    }
  }

  /** An assignment put first, with none after it, is as good as one put last. */
  lemma FirstIsLast(m: map<string, string>, last: map<string, string>, name: string)
    requires last.Keys <= {name}
    ensures last + (m - {name}) == m - {name} + last
  {
  }

  lemma LineMapOne(line: string)
    ensures LineKey(line).None? ==> LineMap(line) == map[]
    ensures LineKey(line).Some? ==> LineMap(line).Keys <= {LineKey(line).value}
  {
    hide LineKey, LineValue;
  }

  lemma {:induction false} ParseReplaced(lines: seq<string>, name: string, assignment: string)
    requires LineKey(assignment) == Some(name) && Assigns(lines, name)
    ensures ParseLines(Replaced(lines, name, assignment)) == ParseLines(lines) - {name} + LineMap(assignment)
  {
    hide LineKey, LineMap;
    var head, rest := lines[0], lines[1..];
    LineMapLess(head, name);
    MapLess(LineMap(head), ParseLines(rest), name);
    if LineKey(head) == Some(name) {
      ParseWithout(rest, name);
      ParseCons(assignment, Without(rest, name));
      LineMapOne(assignment);
      FirstIsLast(ParseLines(rest), LineMap(assignment), name);
      MapLess(ParseLines(rest) - {name}, map[], name);
    } else {
      StillAssigns(lines, name);
      ParseReplaced(rest, name, assignment);
      ParseCons(head, Replaced(rest, name, assignment));
      MapAssoc(LineMap(head), ParseLines(rest) - {name}, LineMap(assignment));
    }
  }

  lemma StillAssigns(lines: seq<string>, name: string)
    requires Assigns(lines, name) && LineKey(lines[0]) != Some(name)
    ensures Assigns(lines[1..], name)
  {
    hide LineKey;
    var i :| 0 <= i < |lines| && LineKey(lines[i]) == Some(name);
    assert lines[1..][i - 1] == lines[i];
  }

  lemma {:induction false} ParseBlankTail(lines: seq<string>)
    ensures ParseLines(DropBlankTail(lines)) == ParseLines(lines)
    decreases |lines|
  {
    hide LineMap, Trim;
    if lines != [] && Trim(lines[|lines| - 1]) == "" {
      var init, last := lines[..|lines| - 1], lines[|lines| - 1];
      ParseBlankTail(init);
      ParseAppend(init, [last]);
      ParseOne(last);
      BlankLine(last);
      assert init + [last] == lines;
    }
  }

  lemma BlankLine(line: string)
    requires Trim(line) == ""
    ensures LineKey(line) == None && LineMap(line) == map[]
  {
  }

  lemma {:induction false} UnassignedAbsent(lines: seq<string>, name: string)
    requires !Assigns(lines, name)
    ensures name !in ParseLines(lines)
  {
    hide LineKey, LineValue;
    if lines != [] {
      assert LineKey(lines[0]) != Some(name);
      assert forall i :: 0 <= i < |lines[1..]| ==> lines[1..][i] == lines[i + 1];
      UnassignedAbsent(lines[1..], name);
    }
  }

  lemma ParseSetLines(lines: seq<string>, name: string, value: string)
    requires IsName(name)
    ensures ParseLines(SetLines(lines, name, value)) == ParseLines(lines) - {name} + LineMap(Assignment(name, value))
  {
    var assignment := Assignment(name, value);
    hide LineKey, LineMap, LineValue, Assignment, IsName, Assigns, Replaced, ParseLines, DropBlankTail;
    AssignmentReadsBack(name, value);
    if Assigns(lines, name) {
      ParseReplaced(lines, name, assignment);
    } else {
      UnassignedAbsent(lines, name);
      ParseBlankTail(lines);
      ParseAppend(DropBlankTail(lines), [assignment]);
      ParseOne(assignment);
      assert ParseLines(lines) - {name} == ParseLines(lines);
    }
  }

  ghost predicate OneLine(lines: seq<string>) {
    forall i :: 0 <= i < |lines| ==> '\n' !in lines[i]
  }

  lemma {:induction false} EditsStayLines(lines: seq<string>, name: string, assignment: string)
    requires OneLine(lines) && '\n' !in assignment
    ensures OneLine(Without(lines, name)) && OneLine(Replaced(lines, name, assignment))
  {
    hide LineKey;
    if lines != [] { EditsStayLines(lines[1..], name, assignment); }
  }

  lemma {:induction false} TailStaysLines(lines: seq<string>)
    requires OneLine(lines)
    ensures OneLine(DropBlankTail(lines))
    decreases |lines|
  {
    hide Trim;
    if lines != [] { TailStaysLines(lines[..|lines| - 1]); }
  }

  lemma LinesAre(raw: string)
    ensures OneLine(Lines(raw)) && ParseLines(Lines(raw)) == Parse(raw)
  {
    hide Split;
    if raw == "" {
      EmptyText();
    } else {
      var lines := Split(raw);
      forall i | 0 <= i < |lines| ensures '\n' !in lines[i] { assert lines[i] in lines; }
    }
  }

  lemma EmptyText()
    ensures Parse("") == map[] == ParseLines([])
  {
    BlankLine("");
    ParseOne("");
    hide LineMap;
  }

  lemma JoinedLines(lines: seq<string>)
    requires OneLine(lines)
    ensures Parse(Join(lines)) == ParseLines(lines)
  {
    hide ParseLines, Split, Join;
    if lines == [] {
      EmptyText();
      assert Join([]) == "" by { EmptyJoin(); }
    } else {
      SplitJoin(lines);
    }
  }

  lemma EmptyJoin()
    ensures Join([]) == ""
  {
  }

  lemma SetLinesAreLines(lines: seq<string>, name: string, value: string)
    requires IsName(name) && !HasBreak(value) && OneLine(lines)
    ensures OneLine(SetLines(lines, name, value))
  {
    AssignmentOneLine(name, value);
    hide Assignment, IsName, HasBreak, LineKey;
    EditsStayLines(lines, name, Assignment(name, value));
    TailStaysLines(lines);
  }

  /** The one name whose assignment the reader drops. */
  lemma NoProto(raw: string)
    ensures PROTO !in Parse(raw)
  {
    NoProtoLines(Split(raw));
  }

  lemma {:induction false} NoProtoLines(lines: seq<string>)
    ensures PROTO !in ParseLines(lines)
  {
    hide LineKey, LineValue;
    if lines != [] { NoProtoLines(lines[1..]); }
  }

  lemma AssignmentMap(name: string, value: string)
    requires IsName(name)
    ensures LineMap(Assignment(name, value)) == if name == PROTO then map[] else map[name := value]
  {
    hide LineKey, LineValue, IsName, Assignment;
    AssignmentReadsBack(name, value);
  }

  /**
   Setting a variable is a map update seen through the reader, for every text and every
   value without a line break: for every name but `__proto__`, and for no other.
   */
  lemma SetIsUpdate(raw: string, name: string, value: string)
    requires IsName(name) && !HasBreak(value)
    ensures Set(raw, name, value).Done?
    ensures Parse(Set(raw, name, value).value) == Parse(raw)[name := value] <==> name != PROTO
    ensures name == PROTO ==> Parse(Set(raw, name, value).value) == Parse(raw)
  {
    hide IsName, HasBreak, Parse, ParseLines, Lines, SetLines, LineMap, Join;
    LinesAre(raw);
    SetLinesAreLines(Lines(raw), name, value);
    JoinedLines(SetLines(Lines(raw), name, value));
    ParseSetLines(Lines(raw), name, value);
    AssignmentMap(name, value);
    NoProto(raw);
    NoProto(Join(SetLines(Lines(raw), name, value)));
    var was := Parse(raw);
    assert was - {name} + map[name := value] == was[name := value];
    if name == PROTO {
      assert was - {name} + map[] == was;
      assert name in was[name := value];
    }
  }

  lemma {:induction false} WithoutSize(lines: seq<string>, name: string)
    ensures |Without(lines, name)| <= |lines|
    ensures |Without(lines, name)| < |lines| <==> Assigns(lines, name)
  {
    hide LineKey;
    if lines != [] {
      WithoutSize(lines[1..], name);
      if LineKey(lines[0]) == Some(name) {
        assert Assigns(lines, name);
      } else if Assigns(lines, name) {
        StillAssigns(lines, name);
      } else {
        assert forall i :: 0 <= i < |lines[1..]| ==> lines[1..][i] == lines[i + 1];
      }
    }
  }

  lemma {:induction false} AssignedPresent(lines: seq<string>, name: string)
    requires Assigns(lines, name) && name != PROTO
    ensures name in ParseLines(lines)
  {
    hide LineKey, LineValue;
    if LineKey(lines[0]) != Some(name) {
      StillAssigns(lines, name);
      AssignedPresent(lines[1..], name);
    }
  }

  /** Unsetting a variable removes exactly it, and says whether a line assigned it. */
  lemma UnsetIsRemoval(raw: string, name: string)
    requires IsName(name)
    ensures UnsetEnvVar(raw, name).Done?
    ensures var r := UnsetEnvVar(raw, name).value;
      && Parse(r.envVars) == Parse(raw) - {name}
      && (r.removed <==> Assigns(Split(raw), name))
      && (name != PROTO ==> (r.removed <==> name in Parse(raw)))
  {
    hide IsName, Parse, ParseLines, Lines, Join, Without, Assigns;
    var lines := Lines(raw);
    LinesAre(raw);
    EditsStayLines(lines, name, "");
    JoinedLines(Without(lines, name));
    ParseWithout(lines, name);
    WithoutSize(lines, name);
    SameAssigns(raw, name);
    if Assigns(lines, name) && name != PROTO { AssignedPresent(lines, name); }
    if !Assigns(lines, name) { UnassignedAbsent(lines, name); }
  }

  lemma SameAssigns(raw: string, name: string)
    ensures Assigns(Lines(raw), name) <==> Assigns(Split(raw), name)
  {
    BlankLine("");
    hide LineKey;
    if raw == "" { assert Split(raw) == [""]; }
  }

  // ---- Names keep their order ------------------------------------------------------

  function Drop(names: seq<string>, name: string): seq<string> {
    if names == [] then [] else (if names[0] == name then [] else [names[0]]) + Drop(names[1..], name)
  }

  /** The names lines assign, each where it first is. */
  function Names(lines: seq<string>): seq<string> {
    if lines == [] then []
    else
      match LineKey(lines[0])
      case None => Names(lines[1..])
      case Some(key) => [key] + Drop(Names(lines[1..]), key)
  }

  /** `envVarNames` */
  function EnvVarNames(raw: string): seq<string> {
    Names(Split(raw))
  }

  lemma DropCons(name: string, rest: seq<string>, other: string)
    ensures Drop([name] + rest, other) == if name == other then Drop(rest, other) else [name] + Drop(rest, other)
  {
    assert ([name] + rest)[1..] == rest && [] + Drop(rest, other) == Drop(rest, other);
  }

  lemma {:induction false} DropTwice(names: seq<string>, a: string, b: string)
    ensures Drop(Drop(names, a), b) == Drop(Drop(names, b), a)
    ensures a == b ==> Drop(Drop(names, a), b) == Drop(names, a)
  {
    if names != [] {
      var head, rest := names[0], names[1..];
      DropTwice(rest, a, b);
      DropCons(head, Drop(rest, a), b);
      DropCons(head, Drop(rest, b), a);
      assert [] + Drop(rest, a) == Drop(rest, a) && [] + Drop(rest, b) == Drop(rest, b);
    }
  }

  lemma {:induction false} DropLast(names: seq<string>, name: string, other: string)
    requires name != other
    ensures Drop(names + [name], other) == Drop(names, other) + [name]
  {
    if names == [] {
      DropCons(name, [], other);
      assert names + [name] == [name] + [];
    } else {
      DropLast(names[1..], name, other);
      assert names + [name] == [names[0]] + (names[1..] + [name]);
      DropCons(names[0], names[1..] + [name], other);
    }
  }

  lemma NamesCons(line: string, rest: seq<string>)
    ensures Names([line] + rest)
         == match LineKey(line) case None => Names(rest) case Some(key) => [key] + Drop(Names(rest), key)
  {
    hide LineKey;
    assert ([line] + rest)[1..] == rest;
  }

  lemma {:induction false} NamesWithout(lines: seq<string>, name: string)
    ensures Names(Without(lines, name)) == Drop(Names(lines), name)
  {
    hide LineKey;
    if lines != [] {
      var head, rest := lines[0], lines[1..];
      NamesWithout(rest, name);
      NamesCons(head, Without(rest, name));
      assert [] + Without(rest, name) == Without(rest, name);
      if LineKey(head).Some? {
        var key := LineKey(head).value;
        DropTwice(Names(rest), key, name);
        DropCons(key, Drop(Names(rest), key), name);
      }
    }
  }

  lemma {:induction false} NamesReplaced(lines: seq<string>, name: string, assignment: string)
    requires LineKey(assignment) == Some(name) && Assigns(lines, name)
    ensures Names(Replaced(lines, name, assignment)) == Names(lines)
  {
    hide LineKey;
    var head, rest := lines[0], lines[1..];
    if LineKey(head) == Some(name) {
      NamesCons(assignment, Without(rest, name));
      NamesWithout(rest, name);
      DropTwice(Names(rest), name, name);
    } else {
      StillAssigns(lines, name);
      NamesReplaced(rest, name, assignment);
      NamesCons(head, Replaced(rest, name, assignment));
    }
  }

  lemma {:induction false} NamesLast(lines: seq<string>, line: string)
    ensures LineKey(line) == None ==> Names(lines + [line]) == Names(lines)
    ensures LineKey(line).Some? && !Assigns(lines, LineKey(line).value) ==>
              Names(lines + [line]) == Names(lines) + [LineKey(line).value]
  {
    hide LineKey;
    if lines == [] {
      NamesCons(line, []);
      assert [] + [line] == [line] + [];
    } else {
      var head, rest := lines[0], lines[1..];
      NamesLast(rest, line);
      assert lines + [line] == [head] + (rest + [line]);
      NamesCons(head, rest + [line]);
      if LineKey(line).Some? && !Assigns(lines, LineKey(line).value) {
        assert LineKey(lines[0]) != LineKey(line);
        assert forall i :: 0 <= i < |rest| ==> rest[i] == lines[i + 1];
        if LineKey(head).Some? { DropLast(Names(rest), LineKey(line).value, LineKey(head).value); }
      }
    }
  }

  lemma {:induction false} NamesBlankTail(lines: seq<string>)
    ensures Names(DropBlankTail(lines)) == Names(lines)
    decreases |lines|
  {
    hide LineKey, Trim;
    if lines != [] && Trim(lines[|lines| - 1]) == "" {
      var init, last := lines[..|lines| - 1], lines[|lines| - 1];
      NamesBlankTail(init);
      BlankLine(last);
      NamesLast(init, last);
      assert init + [last] == lines;
    }
  }

  lemma {:induction false} DropMember(names: seq<string>, name: string, other: string)
    ensures other in Drop(names, name) <==> other in names && other != name
  {
    if names != [] { DropMember(names[1..], name, other); }
  }

  lemma {:induction false} NamedIffAssigned(lines: seq<string>, name: string)
    ensures name in Names(lines) <==> Assigns(lines, name)
  {
    hide LineKey;
    if lines != [] {
      var head, rest := lines[0], lines[1..];
      NamedIffAssigned(rest, name);
      AssignsRest(lines, name);
      if LineKey(head).Some? { DropMember(Names(rest), LineKey(head).value, name); }
    }
  }

  lemma AssignsRest(lines: seq<string>, name: string)
    requires lines != []
    ensures Assigns(lines, name) <==> LineKey(lines[0]) == Some(name) || Assigns(lines[1..], name)
  {
    hide LineKey;
    if Assigns(lines[1..], name) {
      var i :| 0 <= i < |lines[1..]| && LineKey(lines[1..][i]) == Some(name);
      assert LineKey(lines[i + 1]) == Some(name);
    }
    if Assigns(lines, name) && LineKey(lines[0]) != Some(name) { StillAssigns(lines, name); }
  }

  lemma NamesOfJoined(lines: seq<string>)
    requires OneLine(lines)
    ensures EnvVarNames(Join(lines)) == Names(lines)
  {
    hide Split, Join, LineKey;
    if lines == [] {
      EmptyJoin();
      NoNames();
    } else {
      SplitJoin(lines);
    }
  }

  lemma NoNames()
    ensures EnvVarNames("") == [] == Names([])
  {
    BlankLine("");
    hide LineKey;
    NamesCons("", []);
    assert [""] + [] == [""];
  }

  lemma NamesOfLines(raw: string)
    ensures Names(Lines(raw)) == EnvVarNames(raw)
  {
    NoNames();
    hide Names;
  }

  /** Setting a variable keeps the order of the names, with a new one last. */
  lemma SetKeepsOrder(raw: string, name: string, value: string)
    requires IsName(name) && !HasBreak(value)
    ensures EnvVarNames(Set(raw, name, value).value)
         == if name in EnvVarNames(raw) then EnvVarNames(raw) else EnvVarNames(raw) + [name]
  {
    hide IsName, HasBreak, Names, EnvVarNames, Lines, LineKey, Join, Assignment, Assigns, Replaced, DropBlankTail;
    hide LineValue;
    var lines, assignment := Lines(raw), Assignment(name, value);
    LinesAre(raw);
    NamesOfLines(raw);
    SetLinesAreLines(lines, name, value);
    NamesOfJoined(SetLines(lines, name, value));
    NamedIffAssigned(lines, name);
    AssignmentReadsBack(name, value);
    if Assigns(lines, name) {
      NamesReplaced(lines, name, assignment);
    } else {
      NamesBlankTail(lines);
      NamedIffAssigned(DropBlankTail(lines), name);
      NamesLast(DropBlankTail(lines), assignment);
    }
  }

  /** Unsetting a variable takes its name out and keeps the order of the others. */
  lemma UnsetKeepsOrder(raw: string, name: string)
    requires IsName(name)
    ensures EnvVarNames(UnsetEnvVar(raw, name).value.envVars) == Drop(EnvVarNames(raw), name)
  {
    hide IsName, Names, EnvVarNames, Lines, LineKey, Join, Without;
    LinesAre(raw);
    NamesOfLines(raw);
    EditsStayLines(Lines(raw), name, "");
    NamesOfJoined(Without(Lines(raw), name));
    NamesWithout(Lines(raw), name);
  }

  /** The names listed are, but for `__proto__`, those the reader has a value for. */
  lemma NamesAreKeys(raw: string, name: string)
    ensures name in Parse(raw) <==> name in EnvVarNames(raw) && name != PROTO
  {
    hide Names, ParseLines, LineKey, Split, Assigns;
    var lines := Split(raw);
    NamedIffAssigned(lines, name);
    NoProto(raw);
    if Assigns(lines, name) {
      if name != PROTO { AssignedPresent(lines, name); }
    } else {
      UnassignedAbsent(lines, name);
    }
  }

  /** No name is listed twice. */
  lemma {:induction false} NamesOnce(lines: seq<string>, i: nat, j: nat)
    requires i < j < |Names(lines)|
    ensures Names(lines)[i] != Names(lines)[j]
  {
    hide LineKey;
    var rest := Names(lines[1..]);
    match LineKey(lines[0])
    case None => NamesOnce(lines[1..], i, j);
    case Some(key) =>
      if i == 0 {
        DropMember(rest, key, Names(lines)[j]);
        assert Names(lines)[j] == Drop(rest, key)[j - 1];
        assert Drop(rest, key)[j - 1] in Drop(rest, key);
      } else {
        var a, b := DropOrder(rest, key, i - 1, j - 1);
        NamesOnce(lines[1..], a, b);
      }
  }

  /** Dropping a name keeps the others in order. */
  lemma {:induction false} DropOrder(names: seq<string>, name: string, i: nat, j: nat) returns (a: nat, b: nat)
    requires i < j < |Drop(names, name)|
    ensures a < b < |names| && names[a] == Drop(names, name)[i] && names[b] == Drop(names, name)[j]
  {
    if names[0] == name {
      a, b := DropOrder(names[1..], name, i, j);
    } else if i > 0 {
      a, b := DropOrder(names[1..], name, i - 1, j - 1);
    } else {
      a := 0;
      b := DropAt(names[1..], name, j - 1);
      b := b + 1;
      return;
    }
    a, b := a + 1, b + 1;
  }

  lemma {:induction false} DropAt(names: seq<string>, name: string, j: nat) returns (b: nat)
    requires j < |Drop(names, name)|
    ensures b < |names| && names[b] == Drop(names, name)[j]
  {
    if names[0] == name {
      b := DropAt(names[1..], name, j);
      b := b + 1;
    } else if j == 0 {
      b := 0;
    } else {
      b := DropAt(names[1..], name, j - 1);
      b := b + 1;
    }
  }

  /** Every line that does not assign the variable stays as it is, but for blank lines at the end. */
  lemma OtherLinesStay(lines: seq<string>, name: string, value: string)
    requires IsName(name)
    ensures Without(SetLines(lines, name, value), name)
         == if Assigns(lines, name) then Without(lines, name) else DropBlankTail(lines)
  {
    hide IsName, LineKey, LineValue, Assignment, DropBlankTail, Replaced;
    var assignment := Assignment(name, value);
    AssignmentReadsBack(name, value);
    if Assigns(lines, name) {
      WithoutReplaced(lines, name, assignment);
    } else {
      BlankTailUnassigned(lines, name);
      NotAssigned(DropBlankTail(lines), name, assignment);
      WithoutLast(DropBlankTail(lines), assignment, name);
    }
  }

  lemma {:induction false} WithoutReplaced(lines: seq<string>, name: string, assignment: string)
    requires LineKey(assignment) == Some(name)
    ensures Without(Replaced(lines, name, assignment), name) == Without(lines, name)
  {
    hide LineKey;
    if lines != [] {
      var head, rest := lines[0], lines[1..];
      WithoutReplaced(rest, name, assignment);
      WithoutTwice(rest, name);
      assert ([assignment] + Without(rest, name))[1..] == Without(rest, name);
      assert ([head] + Replaced(rest, name, assignment))[1..] == Replaced(rest, name, assignment);
    }
  }

  lemma {:induction false} WithoutTwice(lines: seq<string>, name: string)
    ensures Without(Without(lines, name), name) == Without(lines, name)
  {
    hide LineKey;
    if lines != [] {
      var rest := Without(lines[1..], name);
      WithoutTwice(lines[1..], name);
      assert ([lines[0]] + rest)[1..] == rest && [] + rest == rest;
    }
  }

  lemma {:induction false} WithoutLast(lines: seq<string>, line: string, name: string)
    requires LineKey(line) == Some(name)
    ensures Without(lines + [line], name) == Without(lines, name)
  {
    hide LineKey;
    if lines != [] {
      WithoutLast(lines[1..], line, name);
      assert (lines + [line])[1..] == lines[1..] + [line];
    }
  }

  lemma {:induction false} BlankTailUnassigned(lines: seq<string>, name: string)
    requires !Assigns(lines, name)
    ensures !Assigns(DropBlankTail(lines), name)
    decreases |lines|
  {
    hide LineKey, Trim;
    if lines != [] && Trim(lines[|lines| - 1]) == "" {
      var init := lines[..|lines| - 1];
      assert forall i :: 0 <= i < |init| ==> init[i] == lines[i];
      BlankTailUnassigned(init, name);
    }
  }
}
