/**
 What the reader of a `.env` text makes of it (`parseEnvString`, deployment.ts), line by
 line, by the form of the line.

 A line has an optional `export`, a name, an equals sign and a value, with white space
 around any of them. Every line that is none of these assigns nothing.
 */
module EnvReader {
  import opened Wrappers
  import opened Text
  import opened EnvFile

  // ---- White space -----------------------------------------------------------------

  predicate Tight(s: string) {
    s != "" ==> !IsSpace(s[0]) && !IsSpace(s[|s| - 1])
  }

  lemma {:induction false} StartBlank(blank: string, s: string)
    requires AllSpace(blank)
    ensures TrimStart(blank + s) == TrimStart(s)
  {
    hide IsSpace;
    if blank == "" {
      assert blank + s == s;
    } else {
      assert (blank + s)[1..] == blank[1..] + s;
      StartBlank(blank[1..], s);
    }
  }

  lemma {:induction false} EndBlank(s: string, blank: string)
    requires AllSpace(blank)
    ensures TrimEnd(s + blank) == TrimEnd(s)
    decreases |blank|
  {
    hide IsSpace;
    if blank == "" {
      assert s + blank == s;
    } else {
      assert (s + blank)[..|s + blank| - 1] == s + blank[..|blank| - 1];
      EndBlank(s, blank[..|blank| - 1]);
    }
  }

  /** White space around a text is trimmed off. */
  lemma TrimAround(before: string, s: string, after: string)
    requires AllSpace(before) && AllSpace(after) && Tight(s)
    ensures Trim(before + s + after) == s
  {
    StartBlank(before, s + after);
    assert before + (s + after) == before + s + after;
    hide IsSpace;
    if s == "" {
      assert s + after == after + "";
      StartBlank(after, "");
    } else {
      assert (s + after)[0] == s[0];
      EndBlank(s, after);
    }
  }

  /** Trimming the start first changes nothing. */
  lemma TrimStarted(s: string)
    ensures Trim(TrimStart(s)) == Trim(s)
  {
    TrimStartDrops(s);
    hide IsSpace;
  }

  // ---- The name --------------------------------------------------------------------

  /** `export` and white space in front. */
  predicate Exported(s: string) {
    |s| > 6 && s[..6] == "export" && IsSpace(s[6])
  }

  /** What stands in front of the equals sign: with `export` and this white space, or without. */
  function Head(gap: Option<string>, name: string, blank: string): string {
    match gap
    case None => name + blank
    case Some(space) => "export" + space + name + blank
  }

  /** A name may be any tight text that cannot be mistaken for a comment or for an exported name. */
  predicate IsHead(gap: Option<string>, name: string, blank: string) {
    && name != "" && Tight(name) && '=' !in name && AllSpace(blank)
    && match gap
       case None => name[0] != '#' && !Exported(name + blank)
       case Some(space) => space != "" && AllSpace(space)
  }

  lemma BlankHasNone(blank: string)
    requires AllSpace(blank)
    ensures '=' !in blank
  {
  }

  lemma HeadStarts(gap: Option<string>, name: string, blank: string)
    requires IsHead(gap, name, blank)
    ensures var head := Head(gap, name, blank); head != "" && !IsSpace(head[0]) && head[0] != '#' && '=' !in head
  {
    BlankHasNone(blank);
    assert !IsSpace('e');
    hide IsSpace;
    if gap.Some? { BlankHasNone(gap.value); }
  }

  /** The name in front of the equals sign is the one that is read. */
  lemma HeadNames(gap: Option<string>, name: string, blank: string)
    requires IsHead(gap, name, blank)
    ensures Trim(DropExport(Head(gap, name, blank))) == name
  {
    TrimAround("", name, blank);
    assert "" + name + blank == name + blank;
    hide IsSpace, Trim, TrimStart;
    if gap.Some? { ExportDropped(gap.value, name, blank); }
  }

  lemma ExportDropped(space: string, name: string, blank: string)
    requires space != "" && AllSpace(space) && AllSpace(blank) && Tight(name)
    ensures Trim(DropExport("export" + space + name + blank)) == name
  {
    var rest := space + name + blank;
    TrimAround(space, name, blank);
    TrimStarted(rest);
    hide IsSpace, Trim, TrimStart, Tight;
    assert "export" + space + name + blank == "export" + rest;
    assert space[0] in space && rest[0] == space[0];
    BehindExport(rest);
  }

  lemma BehindExport(rest: string)
    requires rest != "" && IsSpace(rest[0])
    ensures DropExport("export" + rest) == TrimStart(rest)
  {
    hide IsSpace, TrimStart;
    assert ("export" + rest)[..6] == "export" && ("export" + rest)[6..] == rest;
  }

  // ---- A line ----------------------------------------------------------------------

  function LineOf(before: string, head: string, gap: string, value: string, after: string): string {
    before + (head + "=" + gap + value) + after
  }

  /** A line in this form, but for the quotes of its value. */
  lemma LineReads(before: string, front: Option<string>, name: string, blank: string, gap: string, value: string,
                  after: string)
    requires IsHead(front, name, blank) && Tight(value)
    requires AllSpace(before) && AllSpace(gap) && AllSpace(after)
    ensures var line := LineOf(before, Head(front, name, blank), gap, value, after);
      LineKey(line) == Some(name) && LineValue(line) == Unquote(value)
  {
    var head := Head(front, name, blank);
    HeadStarts(front, name, blank);
    HeadNames(front, name, blank);
    hide IsSpace, Trim, DropExport, Head, IsHead, Unquote, IndexOfChar;
    var line := LineOf(before, head, gap, value, after);
    var core := head + "=" + if value == "" then "" else gap + value;
    CoreOf(before, head, gap, value, after);
    var enc := core[|head| + 1..];
    assert enc == if value == "" then "" else gap + value;
    TrimAround(gap, value, "");
    TrimAround("", "", "");
    assert gap + value + "" == gap + value && "" + "" + "" == "";
    IndexOver(head, "=" + enc, '=');
    EqFirst(head, enc);
    assert core[..|head|] == head;
  }

  /** The line without the white space around it. */
  lemma CoreOf(before: string, head: string, gap: string, value: string, after: string)
    requires head != "" && !IsSpace(head[0]) && Tight(value)
    requires AllSpace(before) && AllSpace(gap) && AllSpace(after)
    ensures Trim(LineOf(before, head, gap, value, after)) == head + "=" + if value == "" then "" else gap + value
  {
    assert !IsSpace('=');
    hide IsSpace, Trim;
    if value == "" {
      TrimAround(before, head + "=", gap + after);
      assert before + (head + "=") + (gap + after) == LineOf(before, head, gap, value, after);
      assert head + "=" + "" == head + "=";
    } else {
      var core := head + "=" + gap + value;
      assert core[0] == head[0] && core[|core| - 1] == value[|value| - 1];
      TrimAround(before, core, after);
      assert core == head + "=" + (gap + value);
    }
  }

  lemma OneLine(line: string)
    requires '\n' !in line
    ensures Parse(line) == LineMap(line)
  {
    hide LineMap;
    SplitPart(line, "");
    ParseOne(line);
  }

  /** What a line leaves in the reader's object: nothing, if the name is the prototype's. */
  function Assigned(name: string, value: string): map<string, string> {
    if name == "__proto__" then map[] else map[name := value]
  }

  /** A pair of single or of double quotes around a value is taken off, whatever is between. */
  lemma QuotedAssigns(before: string, front: Option<string>, name: string, blank: string, gap: string, quote: char,
                      value: string, after: string)
    requires IsHead(front, name, blank) && (quote == '"' || quote == '\'')
    requires AllSpace(before) && AllSpace(gap) && AllSpace(after)
    requires '\n' !in before + Head(front, name, blank) + gap + value + after
    ensures Parse(LineOf(before, Head(front, name, blank), gap, [quote] + value + [quote], after)) ==
            Assigned(name, value)
  {
    var quoted := [quote] + value + [quote];
    var line := LineOf(before, Head(front, name, blank), gap, quoted, after);
    assert !IsSpace(quote);
    assert quoted[1..|quoted| - 1] == value;
    hide IsSpace, IsHead, Head, LineKey, LineValue;
    assert '\n' !in line;
    LineReads(before, front, name, blank, gap, quoted, after);
    OneLine(line);
  }

  /** A value that no pair of quotes is around is assigned as it is; a lone quote counts as an empty pair. */
  lemma TightAssigns(before: string, front: Option<string>, name: string, blank: string, gap: string, value: string,
                     after: string)
    requires IsHead(front, name, blank) && Tight(value)
    requires AllSpace(before) && AllSpace(gap) && AllSpace(after)
    requires '\n' !in before + Head(front, name, blank) + gap + value + after
    requires value != "" && value[0] == value[|value| - 1] ==> value[0] != '"' && value[0] != '\''
    ensures Parse(LineOf(before, Head(front, name, blank), gap, value, after)) == Assigned(name, value)
  {
    var line := LineOf(before, Head(front, name, blank), gap, value, after);
    hide IsSpace, IsHead, Head, LineKey, LineValue;
    assert '\n' !in line;
    LineReads(before, front, name, blank, gap, value, after);
    OneLine(line);
  }

  lemma LoneQuoteAssigns(before: string, front: Option<string>, name: string, blank: string, gap: string, quote: char,
                         after: string)
    requires IsHead(front, name, blank) && (quote == '"' || quote == '\'')
    requires AllSpace(before) && AllSpace(gap) && AllSpace(after)
    requires '\n' !in before + Head(front, name, blank) + gap + after
    ensures Parse(LineOf(before, Head(front, name, blank), gap, [quote], after)) == Assigned(name, "")
  {
    var line := LineOf(before, Head(front, name, blank), gap, [quote], after);
    assert !IsSpace(quote);
    hide IsSpace, IsHead, Head, LineKey, LineValue;
    assert '\n' !in line;
    LineReads(before, front, name, blank, gap, [quote], after);
    OneLine(line);
  }

  // ---- Lines that assign nothing ---------------------------------------------------

  lemma {:induction false} EndKeepsHead(s: string)
    requires s != "" && !IsSpace(s[0])
    ensures TrimEnd(s) != "" && TrimEnd(s)[0] == s[0] && TrimEnd(s) <= s
    decreases |s|
  {
    hide IsSpace;
    if IsSpace(s[|s| - 1]) { EndKeepsHead(s[..|s| - 1]); }
  }

  lemma TrimsTo(before: string, line: string)
    requires AllSpace(before) && line != "" && !IsSpace(line[0])
    ensures var t := Trim(before + line); t != "" && t[0] == line[0] && t <= line
  {
    StartBlank(before, line);
    EndKeepsHead(line);
  }

  lemma AllBlank(before: string, line: string)
    requires AllSpace(before) && AllSpace(line)
    ensures AllSpace(before + line)
  {
    hide IsSpace;
  }

  lemma TrimHasNone(s: string, c: char)
    requires c !in s
    ensures c !in Trim(s)
  {
    TrimStartDrops(s);
    TrimEndDrops(TrimStart(s));
    hide IsSpace, TrimStart, TrimEnd;
    var t := TrimStart(s);
    assert forall i :: 0 <= i < |t| ==> t[i] == s[|s| - |t| + i];
  }

  /** A blank line, a comment, a line with no equals sign, and one with no name in front of it assign nothing. */
  lemma NothingAssigned(before: string, line: string)
    requires '\n' !in before + line && AllSpace(before)
    requires AllSpace(line) || '=' !in line || line[0] == '#' || line[0] == '='
    ensures Parse(before + line) == map[]
  {
    BlankHasNone(before);
    OneLine(before + line);
    assert !IsSpace('#') && !IsSpace('=');
    hide IsSpace, Trim;
    if AllSpace(line) {
      AllBlank(before, line);
      TrimBlank(before + line);
    } else if '=' !in line {
      TrimHasNone(before + line, '=');
    } else {
      TrimsTo(before, line);
      if line[0] == '=' { NamelessKey(before + line); }
    }
  }

  lemma NamelessKey(line: string)
    requires var t := Trim(line); t != "" && t[0] == '='
    ensures LineKey(line) == None
  {
    var t := Trim(line);
    assert t[..IndexOfChar(t, '=')] == "";
    TrimAround("", "", "");
    assert "" + "" + "" == "";
    hide Trim;
  }

  /** Nor does `export` with no name behind it. */
  lemma NamelessExport(before: string, blank: string, value: string)
    requires AllSpace(before) && AllSpace(blank) && blank != ""
    requires '\n' !in before + blank + value
    ensures Parse(before + ("export" + blank + "=" + value)) == map[]
  {
    var head := "export" + blank;
    var line := head + "=" + value;
    BlankHasNone(blank);
    assert '\n' !in before + line;
    OneLine(before + line);
    assert !IsSpace('e');
    TrimsTo(before, line);
    hide IsSpace, Trim;
    var t := Trim(before + line);
    EqualsStays(before, head, value);
    assert t[..|head|] == head;
    assert head[..6] == "export" && head[6..] == blank;
    TrimStarted(blank);
    TrimBlank(blank);
  }

  /** Trimming does not reach the equals sign. */
  lemma EqualsStays(before: string, head: string, value: string)
    requires AllSpace(before) && head != "" && !IsSpace(head[0]) && '=' !in head
    ensures var t := Trim(before + (head + "=" + value)); head + "=" <= t && IndexOfChar(t, '=') == |head|
  {
    var core := head + "=";
    StartBlank(before, core + value);
    assert core[0] == head[0];
    assert !IsSpace('=');
    hide IsSpace;
    assert TrimStart(core + value) == core + value;
    TrimEndAfter(core, value);
    var rest := "=" + TrimEnd(value);
    assert core + TrimEnd(value) == head + rest;
    IndexOver(head, rest, '=');
  }

  // ---- There are no other lines ----------------------------------------------------

  lemma TrimIsTight(s: string)
    ensures Tight(Trim(s))
  {
    var t := TrimStart(s);
    TrimStartDrops(s);
    TrimEndDrops(t);
    hide IsSpace, TrimStart, TrimEnd;
    assert TrimEnd(t) != "" ==> TrimEnd(t)[0] == t[0];
  }

  lemma TrimSplits(s: string) returns (before: string, after: string)
    ensures s == before + Trim(s) + after && AllSpace(before) && AllSpace(after) && Tight(Trim(s))
    ensures s != "" && !IsSpace(s[0]) ==> before == ""
  {
    TrimIsTight(s);
    LeadAndRest(s);
    RestAndTrail(TrimStart(s));
    before, after := LeadingSpace(s), TrailingSpace(TrimStart(s));
    hide IsSpace, TrimStart, TrimEnd, TrailingSpace, AllSpace, Tight;
    assert before + (Trim(s) + after) == before + Trim(s) + after;
  }

  /** Every line that assigns anything has the form of the ones above. */
  lemma EveryLine(line: string)
      returns (before: string, front: Option<string>, name: string, blank: string, gap: string, value: string,
               after: string)
    requires LineKey(line).Some?
    ensures IsHead(front, name, blank) && Tight(value) && AllSpace(before) && AllSpace(gap) && AllSpace(after)
    ensures line == LineOf(before, Head(front, name, blank), gap, value, after)
  {
    var outer;
    before, outer := TrimSplits(line);
    var t := Trim(line);
    var eq := IndexOfChar(t, '=');
    KeyHead(line);
    CutAt(t, eq);
    hide *;
    var rest, tail := t[eq + 1..], "";
    front, name, blank := HeadSpelt(t[..eq]);
    gap, tail := TrimSplits(rest);
    value := Trim(rest);
    after := tail + outer;
    AllBlank(tail, outer);
    Joined(before, t[..eq], gap, value, tail, outer);
  }

  lemma CutAt(t: string, eq: nat)
    requires eq < |t| && t[eq] == '='
    ensures t == t[..eq] + "=" + t[eq + 1..]
  {
  }

  lemma Joined(before: string, head: string, gap: string, value: string, tail: string, outer: string)
    ensures before + (head + "=" + (gap + value + tail)) + outer == LineOf(before, head, gap, value, tail + outer)
  {
    var core := head + "=" + gap + value;
    assert head + "=" + (gap + value + tail) == core + tail;
    assert before + (core + tail) + outer == before + core + (tail + outer);
  }

  lemma KeyHead(line: string)
    requires LineKey(line).Some? && Tight(Trim(line))
    ensures var t := Trim(line); var eq := IndexOfChar(t, '=');
      && eq < |t| && 0 < eq && !IsSpace(t[0]) && t[0] != '#' && '=' !in t[..eq]
      && Trim(DropExport(t[..eq])) != ""
  {
    var t := Trim(line);
    var eq := IndexOfChar(t, '=');
    TrimAround("", "", "");
    assert "" + "" + "" == "";
    hide Trim, IsSpace;
    assert t[..0] == "" && DropExport("") == "";
  }

  lemma HeadSpelt(head: string) returns (front: Option<string>, name: string, blank: string)
    requires head != "" && !IsSpace(head[0]) && head[0] != '#' && '=' !in head && Trim(DropExport(head)) != ""
    ensures IsHead(front, name, blank) && head == Head(front, name, blank)
  {
    hide IsSpace, Trim, TrimStart;
    var space;
    if Exported(head) {
      space, blank := TrimSplits(head[6..]);
      name := Trim(head[6..]);
      front := Some(space);
      TrimStarted(head[6..]);
      SpaceFirst(space, name, blank);
      assert head == head[..6] + head[6..];
      assert '=' !in name;
    } else {
      space, blank := TrimSplits(head);
      name, front := Trim(head), None;
      assert head == name + blank;
      assert name[0] == head[0];
    }
  }

  lemma SpaceFirst(space: string, name: string, blank: string)
    requires name != "" && Tight(name) && IsSpace((space + name + blank)[0])
    ensures space != ""
  {
    assert "" + name + blank == name + blank;
  }

  // ---- What is written ---------------------------------------------------------------

  lemma UnquoteShorter(s: string)
    ensures |Unquote(s)| <= |s| && (|Unquote(s)| == |s| ==> Unquote(s) == s)
  {
  }

  /** A value is written as it is exactly when it is read as it is; the quotes are for all others. */
  lemma PlainIfRead(name: string, value: string)
    requires IsName(name)
    ensures Assignment(name, value) == name + "=" + value <==> LineValue(name + "=" + value) == value
    ensures Assignment(name, value) == name + "=" + value || Assignment(name, value) == name + "='" + value + "'"
  {
    hide *;
    ValueRead(name, value);
    ReadAsIs(value);
    WrittenPlain(name, value);
    WrittenEither(name, value);
  }

  lemma ValueRead(name: string, value: string)
    requires IsName(name)
    ensures LineValue(name + "=" + value) == Unquote(Trim(value))
  {
    NameIsHead(name);
    hide IsName, Trim, Unquote, IsSpace, LineValue, LineKey, IsHead;
    var gap, after := TrimSplits(value);
    var v := Trim(value);
    NoFront(name);
    hide LineOf, Head, Tight, AllSpace;
    LineReads("", None, name, "", gap, v, after);
    LineJoined(name, gap, v, after);
  }

  lemma LineJoined(name: string, gap: string, value: string, after: string)
    ensures LineOf("", name, gap, value, after) == name + "=" + (gap + value + after)
  {
    var core := name + "=" + gap + value;
    assert "" + core == core;
    assert name + "=" + (gap + value + after) == core + after;
  }

  lemma NoFront(name: string)
    ensures Head(None, name, "") == name && AllSpace("")
  {
    assert name + "" == name;
  }

  lemma ReadAsIs(value: string)
    ensures Unquote(Trim(value)) == value <==> value == Trim(value) && Unquote(value) == value
  {
    var gap, after := TrimSplits(value);
    UnquoteShorter(Trim(value));
    hide Trim, Unquote, IsSpace;
    assert value == gap + Trim(value) + after;
    assert |Trim(value)| == |value| ==> Trim(value) == value;
  }

  lemma WrittenEither(name: string, value: string)
    ensures Assignment(name, value) == name + "=" + value || Assignment(name, value) == name + "='" + value + "'"
  {
    hide Trim, Unquote;
    assert name + "=" + ("'" + value + "'") == name + "='" + value + "'";
  }

  lemma WrittenPlain(name: string, value: string)
    ensures Assignment(name, value) == name + "=" + value <==> Encode(value) == value
    ensures Encode(value) == value <==> value == Trim(value) && Unquote(value) == value
  {
    hide Trim, Unquote;
    var a := name + "=";
    assert Assignment(name, value)[|a|..] == Encode(value) && (a + value)[|a|..] == value;
  }

  lemma NameIsHead(name: string)
    requires IsName(name)
    ensures IsHead(None, name, "")
  {
    NameChars(name);
    assert name + "" == name;
  }

  // ---- A text ----------------------------------------------------------------------

  /** A text is read line by line, and a later line of the same name wins. */
  lemma LinesCombine(line: string, rest: string)
    requires '\n' !in line
    ensures Parse(line + "\n" + rest) == Parse(line) + Parse(rest)
  {
    hide LineMap;
    SplitPart(line, rest);
    OneLine(line);
  }
}
