/**
 Which texts are route strings (`parseRouteString`, routeString.ts), by how they are spelt.

 `Spells` says what a route may be written as: an optional scheme in any letter case, the
 host in any letter case with or without a dot behind it, and the segments of the path
 behind one or more slashes each. `ParsesExactly` is that the parser reads these texts as
 what they spell, and no others.
 */
module RouteSpelling {
  import opened Wrappers
  import opened Text
  import opened RouteStrings
  import Verify

  // ---- Spellings -------------------------------------------------------------------

  function Slashes(n: nat): string {
    seq(n, _ => '/')
  }

  /** The segments, with this many slashes in front of each and at the end. */
  function SlashPath(segments: seq<string>, gaps: seq<nat>): string
    requires |gaps| == |segments| + 1
  {
    if segments == [] then Slashes(gaps[0])
    else Slashes(gaps[0]) + (segments[0] + SlashPath(segments[1..], gaps[1..]))
  }

  predicate Apart(segments: seq<string>, gaps: seq<nat>) {
    |gaps| == |segments| + 1 && forall i :: 0 <= i < |segments| ==> gaps[i] >= 1
  }

  function Prefix(scheme: string): string {
    if scheme == "" then "" else scheme + "://"
  }

  function Dot(dot: bool): string {
    if dot then "." else ""
  }

  predicate SchemeFits(scheme: string, httpOnly: bool) {
    if scheme == "" then !httpOnly else ToLower(scheme) == if httpOnly then "http" else "https"
  }

  ghost predicate Spells(text: string, p: Parsed, scheme: string, name: string, dot: bool, segments: seq<string>,
                         gaps: seq<nat>) {
    && SchemeFits(scheme, p.httpOnly)
    && ToLower(name) == p.host && IsHostname(p.host)
    && AllSegments(segments) && Apart(segments, gaps) && p.pathPrefix == PathOf(segments)
    && text == Prefix(scheme) + (name + Dot(dot) + SlashPath(segments, gaps))
  }

  // ---- Paths -----------------------------------------------------------------------

  /** Empty, or with a slash in front. */
  predicate Slashed(s: string) {
    s == "" || s[0] == '/'
  }

  lemma {:induction false} SlashesDrop(n: nat, s: string)
    ensures NonEmpty(Split(Slashes(n) + s, '/')) == NonEmpty(Split(s, '/'))
    decreases n
  {
    hide Split, NonEmpty;
    if n == 0 {
      assert Slashes(0) + s == s;
    } else {
      SlashFirst(Slashes(n) + s);
      assert (Slashes(n) + s)[1..] == Slashes(n - 1) + s;
      SlashesDrop(n - 1, s);
    }
  }

  lemma SegmentFirst(segment: string, rest: string)
    requires segment != "" && '/' !in segment && Slashed(rest)
    ensures NonEmpty(Split(segment + rest, '/')) == [segment] + NonEmpty(Split(rest, '/'))
  {
    if rest == "" {
      SplitPart(segment, "", '/');
      assert segment + rest == segment && Split("", '/') == [""];
      assert NonEmpty([segment]) == [segment] + NonEmpty([]) && NonEmpty([""]) == [] + NonEmpty([]);
    } else {
      hide Split;
      SplitPart(segment, rest[1..], '/');
      assert segment + "/" + rest[1..] == segment + rest;
      SlashFirst(rest);
      assert ([segment] + Split(rest[1..], '/'))[1..] == Split(rest[1..], '/');
    }
  }

  lemma SlashPathSlashed(segments: seq<string>, gaps: seq<nat>)
    requires Apart(segments, gaps)
    ensures Slashed(SlashPath(segments, gaps))
  {
  }

  lemma NoSlash(segment: string)
    requires IsSegment(segment)
    ensures '/' !in segment && segment != ""
  {
  }

  /** However many slashes there are, the segments are the path's. */
  lemma {:induction false} SegmentsOf(segments: seq<string>, gaps: seq<nat>)
    requires AllSegments(segments) && Apart(segments, gaps)
    ensures NonEmpty(Split(SlashPath(segments, gaps), '/')) == segments
    decreases |segments|
  {
    hide Split, NonEmpty, IsSegment;
    if segments == [] {
      SlashesDrop(gaps[0], "");
      assert Slashes(gaps[0]) + "" == Slashes(gaps[0]);
      NoSegments();
    } else {
      var rest := SlashPath(segments[1..], gaps[1..]);
      assert IsSegment(segments[0]);
      NoSlash(segments[0]);
      SegmentsOf(segments[1..], gaps[1..]);
      SlashPathSlashed(segments[1..], gaps[1..]);
      SlashesDrop(gaps[0], segments[0] + rest);
      SegmentFirst(segments[0], rest);
      assert [segments[0]] + segments[1..] == segments;
    }
  }

  lemma NoSegments()
    ensures NonEmpty(Split("", '/')) == []
  {
    assert Split("", '/') == [""];
    assert NonEmpty([""]) == [] + NonEmpty([]);
  }

  /** Every path spells its own segments. */
  lemma {:induction false} PathSpelt(path: string) returns (gaps: seq<nat>)
    requires Slashed(path)
    ensures Apart(NonEmpty(Split(path, '/')), gaps)
    ensures SlashPath(NonEmpty(Split(path, '/')), gaps) == path
    decreases |path|
  {
    hide Split, NonEmpty;
    if path == "" {
      NoSegments();
      gaps := [0];
    } else {
      var s := path[1..];
      SlashFirst(path);
      if Slashed(s) {
        gaps := PathSpelt(s);
        MoreSlashes(NonEmpty(Split(s, '/')), gaps, s);
        gaps := [gaps[0] + 1] + gaps[1..];
      } else {
        var end := IndexOfChar(s, '/');
        var segment, rest := s[..end], s[end..];
        gaps := PathSpelt(rest);
        SegmentFirst(segment, rest);
        assert segment + rest == s;
        OneSegment(segment, NonEmpty(Split(rest, '/')), gaps, rest);
        gaps := [1] + gaps;
      }
      assert "/" + s == path;
    }
  }

  lemma MoreSlashes(segments: seq<string>, gaps: seq<nat>, s: string)
    requires Apart(segments, gaps) && SlashPath(segments, gaps) == s
    ensures var more := [gaps[0] + 1] + gaps[1..];
      Apart(segments, more) && SlashPath(segments, more) == "/" + s
  {
    var more := [gaps[0] + 1] + gaps[1..];
    assert more[1..] == gaps[1..];
    assert Slashes(gaps[0] + 1) == "/" + Slashes(gaps[0]);
    hide Slashes;
    if segments != [] {
      var rest := segments[0] + SlashPath(segments[1..], gaps[1..]);
      assert "/" + Slashes(gaps[0]) + rest == "/" + (Slashes(gaps[0]) + rest);
    }
  }

  lemma OneSegment(segment: string, segments: seq<string>, gaps: seq<nat>, rest: string)
    requires Apart(segments, gaps) && SlashPath(segments, gaps) == rest
    ensures Apart([segment] + segments, [1] + gaps)
    ensures SlashPath([segment] + segments, [1] + gaps) == "/" + (segment + rest)
  {
    assert ([segment] + segments)[1..] == segments && ([1] + gaps)[1..] == gaps;
    assert Slashes(1) == "/";
  }

  // ---- Characters ------------------------------------------------------------------

  /** What lowers to a host has neither of the characters that mean something else. */
  lemma NameHasNone(name: string, host: string, c: char)
    requires ToLower(name) == host && HostShaped(host) && c in "?#/:"
    ensures c !in name
  {
    assert LowerChar(c) == c;
    forall i | 0 <= i < |name| ensures name[i] != c { HostCharIsPlain(host[i]); }
  }

  lemma {:induction false} SlashPathHasNone(segments: seq<string>, gaps: seq<nat>, c: char)
    requires AllSegments(segments) && Apart(segments, gaps) && c in "?#:"
    ensures c !in SlashPath(segments, gaps)
    decreases |segments|
  {
    if segments != [] {
      SlashPathHasNone(segments[1..], gaps[1..], c);
      assert IsSegment(segments[0]);
    }
  }

  lemma SchemeLetters(scheme: string, httpOnly: bool)
    requires scheme != "" && SchemeFits(scheme, httpOnly)
    ensures forall i :: 0 <= i < |scheme| ==> IsSchemeChar(scheme[i]) && IsAlpha(scheme[i])
  {
    var low := ToLower(scheme);
    forall i | 0 <= i < |scheme| ensures IsSchemeChar(scheme[i]) && IsAlpha(scheme[i]) {
      assert low[i] == LowerChar(scheme[i]);
      assert low[i] in "https";
      LetterLowers(scheme[i]);
    }
  }

  lemma LetterLowers(c: char)
    requires LowerChar(c) in "https"
    ensures IsSchemeChar(c) && IsAlpha(c)
  {
  }

  lemma SchemeRead(scheme: string, httpOnly: bool, rest: string)
    requires scheme != "" && SchemeFits(scheme, httpOnly)
    ensures SchemeOf(scheme + "://" + rest) == Some(scheme)
    ensures (scheme + "://" + rest)[|scheme| + 3..] == rest
  {
    SchemeLetters(scheme, httpOnly);
    hide IsSchemeChar, IsAlpha, SchemeFits;
    var s := scheme + "://" + rest;
    assert s == scheme + ("://" + rest);
    ColonEnds(rest);
    RunOver(scheme, "://" + rest);
    assert s[|scheme|..] == "://" + rest && s[..|scheme|] == scheme && s[0] == scheme[0];
  }

  lemma ColonEnds(rest: string)
    ensures SchemeRun("://" + rest) == 0
  {
  }

  lemma NoColon(s: string)
    requires ':' !in s
    ensures SchemeOf(s) == None
  {
    var n := SchemeRun(s);
    assert n < |s| ==> s[n] == s[n..][0] && s[n] in s;
  }

  lemma HttpsNames(scheme: string, httpOnly: bool)
    requires scheme != "" && SchemeFits(scheme, httpOnly)
    ensures ToLower(scheme) == "http" || ToLower(scheme) == "https"
    ensures ToLower(scheme) == "http" <==> httpOnly
  {
  }

  // ---- A spelling is read as what it spells ----------------------------------------

  lemma DotDrops(name: string, host: string, dot: bool)
    requires ToLower(name) == host && HostShaped(host)
    ensures DropDot(ToLower(name + Dot(dot))) == host
  {
    LowerAppend(name, Dot(dot));
    hide HostShaped;
    if dot {
      DotIsDot('.');
      assert ToLower(".") == ".";
      assert (host + ".")[..|host|] == host;
    } else {
      assert name + Dot(dot) == name;
      assert HostShaped(host);
      LowerFixed(host);
    }
  }

  lemma RestSpelt(name: string, dot: bool, segments: seq<string>, gaps: seq<nat>, p: Parsed)
    requires ToLower(name) == p.host && IsHostname(p.host)
    requires AllSegments(segments) && Apart(segments, gaps) && p.pathPrefix == PathOf(segments)
    ensures var rest := name + Dot(dot) + SlashPath(segments, gaps);
      ':' !in rest && ParseRest(rest, p.httpOnly) == Route(p)
  {
    hide HostShaped, IsHostname, AllSegments, ToLower, NonEmpty, Split, PathOf, DropDot, SlashPath;
    HostnameShaped(p.host);
    var host, path := name + Dot(dot), SlashPath(segments, gaps);
    NameHasNone(name, p.host, '?');
    NameHasNone(name, p.host, '#');
    NameHasNone(name, p.host, ':');
    NameHasNone(name, p.host, '/');
    SlashPathHasNone(segments, gaps, '?');
    SlashPathHasNone(segments, gaps, '#');
    SlashPathHasNone(segments, gaps, ':');
    SlashPathSlashed(segments, gaps);
    IndexOver(host, path, '/');
    assert (host + path)[..|host|] == host && (host + path)[|host|..] == path;
    DotDrops(name, p.host, dot);
    SegmentsOf(segments, gaps);
  }

  lemma SpellingParses(input: string, p: Parsed, scheme: string, name: string, dot: bool, segments: seq<string>,
                       gaps: seq<nat>)
    requires Spells(Trim(input), p, scheme, name, dot, segments, gaps)
    ensures Parse(input) == Route(p)
  {
    hide IsHostname, AllSegments, ParseRest, SchemeOf, SlashPath, Trim, PathOf;
    RestSpelt(name, dot, segments, gaps, p);
    var rest := name + Dot(dot) + SlashPath(segments, gaps);
    if scheme == "" {
      assert "" + rest == rest;
      NoColon(rest);
    } else {
      hide SchemeFits;
      SchemeRead(scheme, p.httpOnly, rest);
      HttpsNames(scheme, p.httpOnly);
    }
  }

  // ---- And nothing else is read ----------------------------------------------------

  lemma NameSpelt(hostPart: string) returns (name: string, dot: bool)
    ensures hostPart == name + Dot(dot) && ToLower(name) == DropDot(ToLower(hostPart))
  {
    var low := ToLower(hostPart);
    if hostPart != "" && hostPart[|hostPart| - 1] == '.' {
      name, dot := hostPart[..|hostPart| - 1], true;
      assert name + "." == hostPart;
      DotIsDot('.');
    } else {
      name, dot := hostPart, false;
      assert name + "" == hostPart;
      if hostPart != "" { DotIsDot(hostPart[|hostPart| - 1]); }
    }
  }

  lemma RestSpells(rest: string, p: Parsed) returns (name: string, dot: bool, segments: seq<string>, gaps: seq<nat>)
    requires ParseRest(rest, p.httpOnly) == Route(p)
    ensures ToLower(name) == p.host && IsHostname(p.host)
    ensures AllSegments(segments) && Apart(segments, gaps) && p.pathPrefix == PathOf(segments)
    ensures rest == name + Dot(dot) + SlashPath(segments, gaps)
  {
    hide IsHostname, AllSegments, ToLower, NonEmpty, Split, PathOf, DropDot, SlashPath;
    var slash := IndexOfChar(rest, '/');
    name, dot := NameSpelt(rest[..slash]);
    segments := NonEmpty(Split(rest[slash..], '/'));
    gaps := PathSpelt(rest[slash..]);
    assert rest == rest[..slash] + rest[slash..];
  }

  lemma SchemeSpells(s: string)
    requires SchemeOf(s).Some?
    ensures var scheme := SchemeOf(s).value; scheme != "" && s == scheme + "://" + s[|scheme| + 3..]
  {
    var n := SchemeRun(s);
    assert s == s[..n] + s[n..n + 3] + s[n + 3..];
    assert s[n..n + 3] == "://" by { assert s[n..][..3] == "://"; }
  }

  lemma ParsedSpells(input: string, p: Parsed)
    requires Parse(input) == Route(p)
    ensures exists scheme, name, dot, segments, gaps :: Spells(Trim(input), p, scheme, name, dot, segments, gaps)
  {
    hide IsHostname, AllSegments, ParseRest, SchemeOf, SlashPath, Trim, PathOf, ToLower;
    var text := Trim(input);
    match SchemeOf(text)
    case None =>
      assert !p.httpOnly by { RestGood(text, false); }
      var name, dot, segments, gaps := RestSpells(text, p);
      assert Spells(text, p, "", name, dot, segments, gaps);
    case Some(scheme) =>
      SchemeSpells(text);
      var rest := text[|scheme| + 3..];
      assert p.httpOnly == (ToLower(scheme) == "http") by { RestGood(rest, ToLower(scheme) == "http"); }
      var name, dot, segments, gaps := RestSpells(rest, p);
      assert Spells(text, p, scheme, name, dot, segments, gaps);
  }

  /** A text is read as a route exactly when, white space around it aside, it is a way of spelling that route. */
  lemma ParsesExactly(input: string, p: Parsed)
    ensures Parse(input) == Route(p) <==>
      exists scheme, name, dot, segments, gaps :: Spells(Trim(input), p, scheme, name, dot, segments, gaps)
  {
    hide Parse, Spells, Trim;
    if Parse(input) == Route(p) { ParsedSpells(input, p); }
    if exists scheme, name, dot, segments, gaps :: Spells(Trim(input), p, scheme, name, dot, segments, gaps) {
      var scheme, name, dot, segments, gaps :| Spells(Trim(input), p, scheme, name, dot, segments, gaps);
      SpellingParses(input, p, scheme, name, dot, segments, gaps);
    }
  }

  // ---- Plain HTTP ------------------------------------------------------------------

  /** `http://` in any letter case. */
  predicate HttpFirst(s: string) {
    |s| >= 7 && ToLower(s[..7]) == "http://"
  }

  /** A route is for plain HTTP exactly when its text starts with `http://`, in any letter case. */
  lemma PlainHttpExactly(input: string)
    requires Parse(input).Route?
    ensures Parse(input).value.httpOnly <==> HttpFirst(Trim(input))
  {
    var p, text := Parse(input).value, Trim(input);
    ParsedSpells(input, p);
    hide Parse, Trim, IsHostname, AllSegments, SlashPath, PathOf;
    var scheme, name, dot, segments, gaps :| Spells(text, p, scheme, name, dot, segments, gaps);
    var rest := name + Dot(dot) + SlashPath(segments, gaps);
    assert ':' !in rest by { RestSpelt(name, dot, segments, gaps, p); }
    assert text == Prefix(scheme) + rest;
    hide Spells, Dot;
    if scheme == "" {
      assert text == rest;
      if HttpFirst(text) { ColonAt(text); }
    } else {
      assert SchemeFits(scheme, p.httpOnly);
      PrefixDecides(scheme, p.httpOnly, rest);
      assert Prefix(scheme) + rest == scheme + "://" + rest;
    }
  }

  lemma ColonAt(s: string)
    requires HttpFirst(s)
    ensures s[4] == ':' && ':' in s
  {
    assert ToLower(s[..7])[4] == LowerChar(s[4]) == ':';
  }

  lemma PrefixDecides(scheme: string, httpOnly: bool, rest: string)
    requires scheme != "" && SchemeFits(scheme, httpOnly)
    ensures HttpFirst(scheme + "://" + rest) <==> httpOnly
  {
    var s := scheme + "://" + rest;
    if httpOnly {
      assert |scheme| == |"http"| == 4;
      assert s[..7] == scheme + "://";
      LowerAppend(scheme, "://");
      assert ToLower("://") == "://";
    } else {
      assert |scheme| == |"https"| == 5;
      assert ToLower(scheme)[4] == 's';
      assert s[4] == scheme[4];
      if HttpFirst(s) { ColonAt(s); }
    }
  }

  /** No scheme and `https://` both mean HTTPS, for every valid host and path. */
  lemma HttpsReadsBack(host: string, path: string)
    requires IsHostname(host) && IsPath(path)
    ensures Parse("https://" + host + path) == Parse(host + path) == Route(Parsed(host, path, false))
    ensures Parse("http://" + host + path) == Route(Parsed(host, path, true))
  {
    hide IsHostname, HostShaped, IsPath, Trim, ParseRest, SchemeOf, Parse, ToLower;
    HostnameShaped(host);
    WrittenReadsBack(host, path, false);
    WrittenReadsBack(host, path, true);
    assert "" + host + path == host + path;
    HttpsText(host, path);
    RestRoundTrip(host, path, false);
    HttpsParse(host, path);
  }

  lemma HttpsText(host: string, path: string)
    requires HostShaped(host) && IsPath(path)
    ensures Trim("https://" + host + path) == "https://" + (host + path)
  {
    hide IsPath, Trim, TrimEnd;
    var start := "https://" + host;
    assert !IsSpace('h');
    HostCharIsPlain(host[|host| - 1]);
    assert start[0] == 'h' && start[|start| - 1] == host[|host| - 1];
    TrimAfter(start, path);
    PathTight(path);
    assert start + path == "https://" + (host + path);
  }

  lemma HttpsParse(host: string, path: string)
    requires Trim("https://" + host + path) == "https://" + (host + path)
    requires ParseRest(host + path, false) == Route(Parsed(host, path, false))
    ensures Parse("https://" + host + path) == Route(Parsed(host, path, false))
  {
    hide Trim, ParseRest, SchemeOf;
    assert SchemeFits("https", false) by { assert ToLower("https") == "https"; }
    SchemeRead("https", false, host + path);
    assert "https" + "://" + (host + path) == "https://" + (host + path);
  }

  // ---- The address of a route ------------------------------------------------------

  /**
   The address that is probed for a route as it is written is the same route, and has the
   scheme that asks for a certificate exactly if the route is not for plain HTTP.
   */
  lemma RouteUrlMeans(host: string, path: string, httpOnly: bool)
    requires IsHostname(host) && IsPath(path)
    ensures var url := Verify.RouteUrl(Written(host, path, httpOnly));
      && Parse(url) == Route(Parsed(host, path, httpOnly))
      && ("https://" <= url <==> !httpOnly) && ("http://" <= url <==> httpOnly)
  {
    hide IsHostname, IsPath, Parse, HostShaped;
    HttpsReadsBack(host, path);
    HostnameShaped(host);
    assert "https://" + (host + path) == "https://" + host + path;
    assert "" + host + path == host + path;
    NoHttp(host, path);
    assert "http://"[4] == ':' && "https://"[4] == 's';
  }

  lemma NoHttp(host: string, path: string)
    requires HostShaped(host) && IsPath(path)
    ensures !("http://" <= host + path)
  {
    HostHasNone(host, ':');
    PathHasNone(path, ':');
    hide HostShaped, IsPath;
    var text := host + path;
    assert |text| > 4 ==> text[4] in text;
    assert "http://"[4] == ':';
  }
}
