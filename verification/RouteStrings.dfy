/**
 Route strings `[http://]host[/pathPrefix]` (routeString.ts), and generated subdomains
 (`slugifySubdomainSeed`, `buildSubdomainCandidate`, routers/services.ts).

 Hostnames are those of section 2.3.1 of RFC 1035 as relaxed by section 2.1 of RFC 1123;
 path segments are the unreserved characters of section 2.3 of RFC 3986.
 */
module RouteStrings {
  import opened Wrappers
  import opened Text
  import HostGroups

  datatype RouteError = BadScheme | HasQuery | HasPort | BadHostname | BadSegment

  datatype Parsed = Parsed(host: string, pathPrefix: string, httpOnly: bool)

  datatype ParseResult = Route(value: Parsed) | Bad(error: RouteError)

  // ---- Words of a route string -----------------------------------------------------

  predicate IsAlnum(c: char) {
    'a' <= c <= 'z' || '0' <= c <= '9'
  }

  /** `DNS_LABEL`, and `SUBDOMAIN_LABEL_REGEX`. */
  predicate IsLabel(s: string) {
    && 1 <= |s| <= 63
    && IsAlnum(s[0]) && IsAlnum(s[|s| - 1])
    && forall i :: 0 <= i < |s| ==> IsAlnum(s[i]) || s[i] == '-'
  }

  /** `HOSTNAME_REGEX` */
  predicate IsHostname(s: string) {
    var parts := Split(s, '.');
    forall i :: 0 <= i < |parts| ==> IsLabel(parts[i])
  }

  predicate IsPathChar(c: char) {
    'A' <= c <= 'Z' || IsAlnum(c) || c == '.' || c == '_' || c == '~' || c == '-'
  }

  predicate IsSegment(s: string) {
    && s != "" && s != "." && s != ".."
    && forall i :: 0 <= i < |s| ==> IsPathChar(s[i])
  }

  predicate IsSchemeChar(c: char) {
    'A' <= c <= 'Z' || IsAlnum(c) || c == '+' || c == '.' || c == '-'
  }

  /** How many characters a scheme's name could have. */
  function SchemeRun(s: string): (r: nat)
    ensures r <= |s|
    ensures forall i :: 0 <= i < r ==> IsSchemeChar(s[i])
    ensures r < |s| ==> !IsSchemeChar(s[r])
  {
    if s == "" || !IsSchemeChar(s[0]) then 0 else 1 + SchemeRun(s[1..])
  }

  predicate IsAlpha(c: char) {
    'A' <= c <= 'Z' || 'a' <= c <= 'z'
  }

  /** The match of `/^([a-z][a-z0-9+.-]*):\/\//i`: the name of the scheme. */
  function SchemeOf(s: string): (r: Option<string>)
    ensures r.Some? ==> |r.value| + 3 <= |s|
  {
    var n := SchemeRun(s);
    if n > 0 && IsAlpha(s[0]) && "://" <= s[n..] then Some(s[..n]) else None
  }

  /** `.replace(/\.$/, "")` */
  function DropDot(s: string): string {
    if s != "" && s[|s| - 1] == '.' then s[..|s| - 1] else s
  }

  /** `.filter(Boolean)` */
  function NonEmpty(parts: seq<string>): seq<string> {
    if parts == [] then [] else (if parts[0] == "" then [] else [parts[0]]) + NonEmpty(parts[1..])
  }

  function PathOf(segments: seq<string>): string {
    if segments == [] then "" else "/" + Join(segments, '/')
  }

  predicate AllSegments(segments: seq<string>) {
    forall i :: 0 <= i < |segments| ==> IsSegment(segments[i])
  }

  // ---- Parsing ---------------------------------------------------------------------

  function ParseRest(rest: string, httpOnly: bool): ParseResult {
    if '?' in rest || '#' in rest then Bad(HasQuery)
    else
      var slash := IndexOfChar(rest, '/');
      var hostPart, pathPart := rest[..slash], rest[slash..];
      var host := DropDot(ToLower(hostPart));
      if ':' in hostPart then Bad(HasPort)
      else if !IsHostname(host) then Bad(BadHostname)
      else
        var segments := NonEmpty(Split(pathPart, '/'));
        if !AllSegments(segments) then Bad(BadSegment)
        else Route(Parsed(host, PathOf(segments), httpOnly))
  }

  /** `parseRouteString` */
  function Parse(input: string): ParseResult {
    var trimmed := Trim(input);
    match SchemeOf(trimmed)
    case None => ParseRest(trimmed, false)
    case Some(scheme) =>
      var name := ToLower(scheme);
      if name != "http" && name != "https" then Bad(BadScheme)
      else ParseRest(trimmed[|scheme| + 3..], name == "http")
  }

  // ---- Resolving and formatting ----------------------------------------------------

  datatype DomainRow = DomainRow(id: nat, hostname: string)

  /** `domains.find(d => d.hostname === hostname)` */
  function FindRow(domains: seq<DomainRow>, hostname: string): (r: Option<DomainRow>)
    ensures r.Some? ==> r.value in domains && r.value.hostname == hostname
    ensures r.None? ==> forall d <- domains :: d.hostname != hostname
  {
    if domains == [] then None
    else if domains[0].hostname == hostname then Some(domains[0])
    else FindRow(domains[1..], hostname)
  }

  datatype Match = Match(domain: DomainRow, subdomain: string)

  /** `resolveRouteHost` */
  function Resolve(host: string, domains: seq<DomainRow>): Option<Match> {
    var exact := if IsWildcard(host) then None else FindRow(domains, host);
    if exact.Some? then Some(Match(exact.value, ""))
    else
      var dot := IndexOfChar(host, '.');
      if dot == |host| then None
      else
        match FindRow(domains, "*." + host[dot + 1..])
        case Some(wildcard) => Some(Match(wildcard, host[..dot]))
        case None => None
  }

  function HostOf(hostname: string, subdomain: string): string {
    if IsWildcard(hostname) && subdomain != "" then subdomain + "." + hostname[2..] else hostname
  }

  function Start(host: string, httpOnly: bool): string {
    (if httpOnly then "http://" else "") + host
  }

  function Written(host: string, pathPrefix: string, httpOnly: bool): string {
    Start(host, httpOnly) + pathPrefix
  }

  /** `formatRouteString` */
  function Format(hostname: Option<string>, subdomain: string, pathPrefix: string, httpOnly: bool): Option<string> {
    match hostname
    case None => None
    case Some(name) => Some(Written(HostOf(name, subdomain), pathPrefix, httpOnly))
  }

  // ---- What a parse yields ---------------------------------------------------------

  /** A path prefix in the form that parsing gives it. */
  predicate IsPath(path: string) {
    path == "" || (path[0] == '/' && AllSegments(Split(path[1..], '/')))
  }

  lemma {:induction false} NonEmptyParts(parts: seq<string>)
    requires forall i :: 0 <= i < |parts| ==> '/' !in parts[i]
    ensures forall i :: 0 <= i < |NonEmpty(parts)| ==> '/' !in NonEmpty(parts)[i]
  {
    if parts != [] { NonEmptyParts(parts[1..]); }
  }

  lemma PathIsPath(segments: seq<string>)
    requires AllSegments(segments) && forall i :: 0 <= i < |segments| ==> '/' !in segments[i]
    ensures IsPath(PathOf(segments))
  {
    if segments != [] {
      assert forall part <- segments :: '/' !in part;
      SplitJoin(segments, '/');
      assert ("/" + Join(segments, '/'))[1..] == Join(segments, '/');
    }
  }

  lemma RestGood(rest: string, httpOnly: bool)
    requires ParseRest(rest, httpOnly).Route?
    ensures var p := ParseRest(rest, httpOnly).value;
            IsHostname(p.host) && IsPath(p.pathPrefix) && p.httpOnly == httpOnly
  {
    var parts := Split(rest[IndexOfChar(rest, '/')..], '/');
    assert forall i :: 0 <= i < |parts| ==> parts[i] in parts;
    NonEmptyParts(parts);
    hide IsHostname, AllSegments, IsPath, Split, NonEmpty, ToLower;
    PathIsPath(NonEmpty(parts));
  }

  /** A parsed host is a hostname and a parsed path a path. */
  lemma ParsedIsGood(input: string)
    requires Parse(input).Route?
    ensures IsHostname(Parse(input).value.host) && IsPath(Parse(input).value.pathPrefix)
  {
    hide ParseRest, IsHostname, IsPath, Trim, ToLower, SchemeOf;
    var trimmed := Trim(input);
    match SchemeOf(trimmed)
    case None => RestGood(trimmed, false);
    case Some(scheme) => RestGood(trimmed[|scheme| + 3..], ToLower(scheme) == "http");
  }

  // ---- The characters of a hostname ------------------------------------------------

  predicate IsHostChar(c: char) {
    IsAlnum(c) || c == '-' || c == '.'
  }

  /** What the other proofs need of a hostname: its characters, and that both ends are letters or digits. */
  ghost predicate HostShaped(s: string) {
    && s != "" && IsAlnum(s[0]) && IsAlnum(s[|s| - 1])
    && forall i :: 0 <= i < |s| ==> IsHostChar(s[i])
  }

  lemma {:induction false} LabelsShaped(parts: seq<string>)
    requires parts != [] && forall i :: 0 <= i < |parts| ==> IsLabel(parts[i])
    ensures HostShaped(Join(parts, '.'))
  {
    hide IsAlnum;
    assert IsLabel(parts[0]);
    if |parts| > 1 {
      LabelsShaped(parts[1..]);
      var first, rest, s := parts[0], Join(parts[1..], '.'), Join(parts, '.');
      assert s == first + "." + rest;
      assert s[0] == first[0] && s[|s| - 1] == rest[|rest| - 1];
      assert forall i :: 0 <= i < |first| ==> s[i] == first[i];
      assert forall i :: |first| < i < |s| ==> s[i] == rest[i - |first| - 1];
    }
  }

  lemma HostnameShaped(s: string)
    requires IsHostname(s)
    ensures HostShaped(s)
  {
    JoinSplit(s, '.');
    LabelsShaped(Split(s, '.'));
  }

  lemma HostCharIsPlain(c: char)
    requires IsHostChar(c)
    ensures !IsSpace(c) && LowerChar(c) == c && IsSchemeChar(c) && c !in "?#/:"
  {
  }

  lemma PathCharIsPlain(c: char)
    requires IsPathChar(c) || c == '/'
    ensures !IsSpace(c) && c !in "?#:"
  {
  }

  /** A path has path characters only. */
  lemma {:induction false} SegmentChars(segments: seq<string>)
    requires AllSegments(segments)
    ensures forall i :: 0 <= i < |Join(segments, '/')| ==>
            IsPathChar(Join(segments, '/')[i]) || Join(segments, '/')[i] == '/'
  {
    hide IsPathChar;
    if |segments| == 1 {
      assert IsSegment(segments[0]);
    } else if |segments| > 1 {
      SegmentChars(segments[1..]);
      var first, rest, s := segments[0], Join(segments[1..], '/'), Join(segments, '/');
      assert IsSegment(first);
      assert s == first + "/" + rest;
      assert forall i :: 0 <= i < |first| ==> s[i] == first[i];
      assert forall i :: |first| < i < |s| ==> s[i] == rest[i - |first| - 1];
    }
  }

  lemma PathChars(path: string)
    requires IsPath(path)
    ensures forall i :: 0 <= i < |path| ==> IsPathChar(path[i]) || path[i] == '/'
  {
    hide IsPathChar, AllSegments;
    if path != "" {
      JoinSplit(path[1..], '/');
      SegmentChars(Split(path[1..], '/'));
      assert forall i :: 1 <= i < |path| ==> path[i] == path[1..][i - 1];
    }
  }

  // ---- The round trip --------------------------------------------------------------

  lemma {:induction false} LowerFixed(s: string)
    requires HostShaped(s)
    ensures ToLower(s) == s && DropDot(s) == s
  {
    forall i | 0 <= i < |s| ensures ToLower(s)[i] == s[i] { HostCharIsPlain(s[i]); }
  }

  lemma {:induction false} NonEmptyAll(segments: seq<string>)
    requires AllSegments(segments)
    ensures NonEmpty(segments) == segments
  {
    if segments != [] {
      assert IsSegment(segments[0]);
      NonEmptyAll(segments[1..]);
    }
  }

  /** A path in its parsed form is parsed to itself. */
  lemma PathSegments(path: string)
    requires IsPath(path)
    ensures var segments := NonEmpty(Split(path, '/')); AllSegments(segments) && PathOf(segments) == path
  {
    if path == "" {
      assert Split("", '/') == [""];
      assert NonEmpty([""]) == [] + NonEmpty([]);
    } else {
      var parts := Split(path[1..], '/');
      hide AllSegments, Split, NonEmpty;
      NonEmptyAll(parts);
      JoinSplit(path[1..], '/');
      assert path == "/" + path[1..];
      SlashFirst(path);
    }
  }

  lemma SlashFirst(path: string)
    requires path != "" && path[0] == '/'
    ensures NonEmpty(Split(path, '/')) == NonEmpty(Split(path[1..], '/'))
  {
    var parts := Split(path[1..], '/');
    assert Split(path, '/') == [""] + parts;
    assert ([""] + parts)[1..] == parts && [] + NonEmpty(parts) == NonEmpty(parts);
  }

  lemma HostHasNone(host: string, c: char)
    requires HostShaped(host) && c in "?#/:"
    ensures c !in host
  {
    forall i | 0 <= i < |host| ensures host[i] != c { HostCharIsPlain(host[i]); }
  }

  lemma PathHasNone(path: string, c: char)
    requires IsPath(path) && c in "?#:"
    ensures c !in path
  {
    PathChars(path);
    forall i | 0 <= i < |path| ensures path[i] != c { PathCharIsPlain(path[i]); }
  }

  lemma RestRoundTrip(host: string, path: string, httpOnly: bool)
    requires IsHostname(host) && IsPath(path)
    ensures ParseRest(host + path, httpOnly) == Route(Parsed(host, path, httpOnly))
  {
    hide IsHostname, HostShaped, IsPath, AllSegments, ToLower, NonEmpty, Split, PathOf, DropDot;
    HostnameShaped(host);
    HostHasNone(host, '?');
    HostHasNone(host, '#');
    HostHasNone(host, '/');
    HostHasNone(host, ':');
    PathHasNone(path, '?');
    PathHasNone(path, '#');
    PathStart(path);
    IndexOver(host, path, '/');
    assert (host + path)[..|host|] == host && (host + path)[|host|..] == path;
    LowerFixed(host);
    PathSegments(path);
  }

  lemma PathStart(path: string)
    requires IsPath(path)
    ensures path == "" || path[0] == '/'
  {
  }

  lemma {:induction false} RunOver(a: string, rest: string)
    requires forall i :: 0 <= i < |a| ==> IsSchemeChar(a[i])
    ensures SchemeRun(a + rest) == |a| + SchemeRun(rest)
  {
    hide IsSchemeChar;
    if a == "" {
      assert a + rest == rest;
    } else {
      assert (a + rest)[1..] == a[1..] + rest;
      RunOver(a[1..], rest);
    }
  }

  lemma HostIsRun(host: string)
    requires HostShaped(host)
    ensures forall i :: 0 <= i < |host| ==> IsSchemeChar(host[i])
  {
    forall i | 0 <= i < |host| ensures IsSchemeChar(host[i]) { HostCharIsPlain(host[i]); }
  }

  lemma NoScheme(host: string, path: string)
    requires HostShaped(host) && (path == "" || path[0] == '/')
    ensures SchemeOf(host + path) == None
  {
    HostIsRun(host);
    RunOver(host, path);
    assert !IsSchemeChar('/');
    hide HostShaped, IsSchemeChar, IsAlpha;
    assert (host + path)[|host|..] == path;
    if path != "" { assert "://"[0] != path[0]; }
  }

  lemma HttpScheme(rest: string)
    ensures SchemeOf("http://" + rest) == Some("http") && ToLower("http") == "http"
    ensures ("http://" + rest)[|"http"| + 3..] == rest
  {
    var s := "http://" + rest;
    assert s == "http" + ("://" + rest);
    assert SchemeRun("://" + rest) == 0;
    RunOver("http", "://" + rest);
    assert s[4..] == "://" + rest && s[..4] == "http";
  }

  /** Trimming what is written touches only the end of the prefix. */
  lemma TrimWritten(host: string, prefix: string, httpOnly: bool)
    requires HostShaped(host)
    ensures Trim(Written(host, prefix, httpOnly)) == Written(host, TrimEnd(prefix), httpOnly)
  {
    StartTight(host, httpOnly);
    hide HostShaped, IsSpace, TrimEnd, TrimStart, Trim, Start;
    TrimAfter(Start(host, httpOnly), prefix);
  }

  lemma StartTight(host: string, httpOnly: bool)
    requires HostShaped(host)
    ensures var start := Start(host, httpOnly);
      start != "" && !IsSpace(start[0]) && !IsSpace(start[|start| - 1])
  {
    HostCharIsPlain(host[0]);
    HostCharIsPlain(host[|host| - 1]);
    assert !IsSpace('h');
    hide IsSpace;
  }

  lemma TrimAfter(start: string, b: string)
    requires start != "" && !IsSpace(start[0]) && !IsSpace(start[|start| - 1])
    ensures Trim(start + b) == start + TrimEnd(b)
  {
    hide IsSpace, TrimEnd;
    assert (start + b)[0] == start[0];
    assert TrimStart(start + b) == start + b;
    TrimEndAfter(start, b);
  }

  lemma PathTight(path: string)
    requires IsPath(path)
    ensures TrimEnd(path) == path
  {
    PathChars(path);
    if path != "" { PathCharIsPlain(path[|path| - 1]); }
  }

  /** A host, a path and a scheme that are written down are read back, for every valid host and path. */
  lemma WrittenReadsBack(host: string, path: string, httpOnly: bool)
    requires IsHostname(host) && IsPath(path)
    ensures Parse(Written(host, path, httpOnly)) == Route(Parsed(host, path, httpOnly))
  {
    hide IsHostname, HostShaped, IsPath, Trim, ParseRest, SchemeOf, ToLower;
    HostnameShaped(host);
    TrimWritten(host, path, httpOnly);
    PathTight(path);
    PathStart(path);
    NoScheme(host, path);
    HttpScheme(host + path);
    RestRoundTrip(host, path, httpOnly);
    assert "http://" + host + path == "http://" + (host + path);
    assert "" + host + path == host + path;
  }

  // ---- Resolving -------------------------------------------------------------------

  lemma {:induction false} IndexFirst(s: string, c: char)
    ensures IndexOfChar(s, c) == |s| <==> c !in s
  {
    if s != "" {
      IndexFirst(s[1..], c);
      assert s == [s[0]] + s[1..];
    }
  }

  lemma NoStar(host: string)
    requires HostShaped(host)
    ensures !IsWildcard(host)
  {
    assert IsAlnum(host[0]);
  }

  /** The row and the subdomain a host resolves to give back that host; a row of its own always wins. */
  lemma ResolvedHost(host: string, domains: seq<DomainRow>)
    requires IsHostname(host) && Resolve(host, domains).Some?
    ensures var m := Resolve(host, domains).value;
      && m.domain in domains
      && HostOf(m.domain.hostname, m.subdomain) == host
      && (m.subdomain == "" <==> !IsWildcard(m.domain.hostname))
      && ((exists d :: d in domains && d.hostname == host) ==> m.domain.hostname == host)
  {
    hide HostShaped, IsHostname, FindRow;
    HostnameShaped(host);
    NoStar(host);
    var dot := IndexOfChar(host, '.');
    if FindRow(domains, host).None? {
      assert dot > 0 by { assert HostShaped(host); FirstIsNoDot(host); }
      assert host == host[..dot] + "." + host[dot + 1..];
      assert ("*." + host[dot + 1..])[2..] == host[dot + 1..];
    }
  }

  lemma FirstIsNoDot(host: string)
    requires HostShaped(host)
    ensures IndexOfChar(host, '.') > 0
  {
    assert IsAlnum(host[0]);
  }

  /** A host resolves exactly when it has a row of its own or a wildcard row one label up. */
  lemma ResolvesIff(host: string, domains: seq<DomainRow>)
    requires IsHostname(host)
    ensures Resolve(host, domains).Some? <==>
              exists d :: d in domains && (d.hostname == host
                || ('.' in host && d.hostname == "*." + host[IndexOfChar(host, '.') + 1..]))
  {
    hide HostShaped, IsHostname, FindRow;
    HostnameShaped(host);
    NoStar(host);
    IndexFirst(host, '.');
  }

  /**
   Route strings round-trip: for every text that parses and resolves, the resolved route's
   own string parses to the same host, path and scheme, and resolves to the same row and
   subdomain.
   */
  lemma RouteStringRoundTrip(input: string, domains: seq<DomainRow>)
    requires Parse(input).Route? && Resolve(Parse(input).value.host, domains).Some?
    ensures var p := Parse(input).value; var m := Resolve(p.host, domains).value;
      var again := Format(Some(m.domain.hostname), m.subdomain, p.pathPrefix, p.httpOnly);
      && again.Some?
      && Parse(again.value) == Parse(input)
      && Resolve(Parse(again.value).value.host, domains) == Some(m)
  {
    hide Parse, Resolve, IsHostname, IsPath, HostOf, Written;
    ParsedIsGood(input);
    var p := Parse(input).value;
    ResolvedHost(p.host, domains);
    WrittenReadsBack(p.host, p.pathPrefix, p.httpOnly);
  }

  // ---- The tuple form --------------------------------------------------------------

  /** The hostname of a Domain row as `domains.create` accepts it: two labels or more, or `localhost`. */
  predicate IsDomainHostname(hostname: string) {
    if IsWildcard(hostname) then IsHostname(hostname[2..]) && '.' in hostname[2..]
    else IsHostname(hostname) && ('.' in hostname || hostname == "localhost")
  }

  /** What a prefix puts between the host and the first slash. */
  function Overlap(prefix: string): string {
    var t := TrimEnd(prefix);
    t[..IndexOfChar(t, '/')]
  }

  lemma {:induction false} LowerAppend(a: string, b: string)
    ensures ToLower(a + b) == ToLower(a) + ToLower(b)
  {
  }

  lemma DotIsDot(c: char)
    ensures LowerChar(c) == '.' <==> c == '.'
  {
  }

  lemma OverlapHost(host: string, q: string)
    requires HostShaped(host)
    ensures DropDot(ToLower(host + q)) == host <==> q == "" || q == "."
  {
    LowerFixed(host);
    LowerAppend(host, q);
    var low := ToLower(q);
    assert |low| == |q|;
    if |q| == 1 { DotIsDot(q[0]); assert low[0] == LowerChar(q[0]); }
    hide ToLower, LowerChar, HostShaped;
    if |q| == 0 { assert low == "" && host + low == host; }
    if |q| == 1 { assert host + low == host + [low[0]]; assert (host + low)[..|host|] == host; }
  }

  lemma RestHost(host: string, t: string, httpOnly: bool)
    requires HostShaped(host) && ParseRest(host + t, httpOnly).Route?
    ensures ParseRest(host + t, httpOnly).value.host == DropDot(ToLower(host + t[..IndexOfChar(t, '/')]))
    ensures ParseRest(host + t, httpOnly).value.httpOnly == httpOnly
  {
    hide HostShaped, IsHostname, AllSegments, ToLower, NonEmpty, Split, PathOf, DropDot;
    HostHasNone(host, '/');
    IndexOver(host, t, '/');
    assert (host + t)[..|host| + IndexOfChar(t, '/')] == host + t[..IndexOfChar(t, '/')];
  }

  /** A scheme that starts with a domain's hostname is neither `http` nor `https`. */
  lemma NotHttp(host: string, rest: string)
    requires HostShaped(host) && ('.' in host || host == "localhost")
    ensures ToLower(host + rest) != "http" && ToLower(host + rest) != "https"
  {
    LowerFixed(host);
    LowerAppend(host, rest);
    var low := ToLower(host + rest);
    hide ToLower, HostShaped;
    if '.' in host {
      var i :| 0 <= i < |host| && host[i] == '.';
      assert low[i] == '.';
    } else {
      assert low[0] == 'l';
    }
  }

  lemma SchemeCoversHost(host: string, t: string)
    requires HostShaped(host) && SchemeOf(host + t).Some?
    ensures host <= SchemeOf(host + t).value
  {
    HostIsRun(host);
    RunOver(host, t);
    hide HostShaped, SchemeRun;
    var n := SchemeRun(host + t);
    assert (host + t)[..n][..|host|] == host;
  }

  lemma TupleRest(host: string, t: string, httpOnly: bool)
    requires HostShaped(host) && ('.' in host || host == "localhost")
    requires Trim(Written(host, t, httpOnly)) == Written(host, t, httpOnly)
    requires Parse(Written(host, t, httpOnly)).Route?
    ensures Parse(Written(host, t, httpOnly)) == ParseRest(host + t, httpOnly)
  {
    hide HostShaped, Trim, ParseRest, SchemeOf, ToLower;
    if httpOnly {
      HttpScheme(host + t);
      assert "http://" + host + t == "http://" + (host + t);
    } else {
      assert "" + host + t == host + t;
      if SchemeOf(host + t).Some? {
        SchemeCoversHost(host, t);
        var scheme := SchemeOf(host + t).value;
        assert scheme == host + scheme[|host|..];
        NotHttp(host, scheme[|host|..]);
      }
    }
  }

  /**
   `addRoute` with an explicit domain writes host and prefix one after the other and parses
   the result. The parsed host is the domain's own exactly when the prefix, white space at
   its end aside, puts nothing or a single dot before its first slash.
   */
  lemma TupleKeepsHost(host: string, prefix: string, httpOnly: bool)
    requires IsHostname(host) && ('.' in host || host == "localhost")
    requires Parse(Written(host, prefix, httpOnly)).Route?
    ensures var p := Parse(Written(host, prefix, httpOnly)).value;
      && (p.host == host <==> Overlap(prefix) == "" || Overlap(prefix) == ".")
      && p.httpOnly == httpOnly
  {
    hide HostShaped, IsHostname, Trim, TrimEnd, ParseRest, ToLower, DropDot, Written, SchemeOf, IndexOfChar;
    HostnameShaped(host);
    var t := TrimEnd(prefix);
    TrimWritten(host, prefix, httpOnly);
    TrimWritten(host, t, httpOnly);
    TrimEndTwice(prefix);
    assert Parse(Written(host, t, httpOnly)) == Parse(Written(host, prefix, httpOnly));
    TupleRest(host, t, httpOnly);
    RestHost(host, t, httpOnly);
    OverlapHost(host, t[..IndexOfChar(t, '/')]);
  }

  lemma TrimEndTwice(s: string)
    ensures TrimEnd(TrimEnd(s)) == TrimEnd(s)
  {
    hide IsSpace;
  }

  // ---- Generated subdomains --------------------------------------------------------

  /** `.replace(/[^a-z0-9-]+/g, "-")` */
  function ReplaceOthers(s: string): string {
    if s == "" then ""
    else if IsAlnum(s[0]) || s[0] == '-' then [s[0]] + ReplaceOthers(s[1..])
    else if |s| > 1 && !IsAlnum(s[1]) && s[1] != '-' then ReplaceOthers(s[1..])
    else "-" + ReplaceOthers(s[1..])
  }

  /** `.replace(/-+/g, "-")` */
  function CollapseDashes(s: string): string {
    if s == "" then ""
    else if s[0] == '-' && |s| > 1 && s[1] == '-' then CollapseDashes(s[1..])
    else [s[0]] + CollapseDashes(s[1..])
  }

  function DropStartDashes(s: string): string {
    if s != "" && s[0] == '-' then DropStartDashes(s[1..]) else s
  }

  function DropEndDashes(s: string): string {
    if s != "" && s[|s| - 1] == '-' then DropEndDashes(s[..|s| - 1]) else s
  }

  function OrService(s: string): string {
    if s == "" then "service" else s
  }

  /** `slugifySubdomainSeed` */
  function Slugify(input: string): string {
    OrService(DropEndDashes(DropStartDashes(CollapseDashes(ReplaceOthers(ToLower(Trim(input)))))))
  }

  /** `buildSubdomainCandidate` with the random suffix it drew. */
  function Candidate(seed: string, suffix: string): string {
    var limit := Max(1, 63 - |suffix| - 1);
    var cut := if |seed| <= limit then seed else seed[..limit];
    OrService(DropEndDashes(cut)) + "-" + suffix
  }

  ghost predicate SlugChars(s: string) {
    forall i :: 0 <= i < |s| ==> IsAlnum(s[i]) || s[i] == '-'
  }

  lemma {:induction false} ReplacedChars(s: string)
    ensures SlugChars(ReplaceOthers(s))
  {
    hide IsAlnum;
    if s != "" { ReplacedChars(s[1..]); }
  }

  lemma {:induction false} CollapsedChars(s: string)
    requires SlugChars(s)
    ensures SlugChars(CollapseDashes(s))
  {
    hide IsAlnum;
    if s != "" { CollapsedChars(s[1..]); }
  }

  lemma {:induction false} StartDropped(s: string)
    requires SlugChars(s)
    ensures SlugChars(DropStartDashes(s)) && (DropStartDashes(s) != "" ==> IsAlnum(DropStartDashes(s)[0]))
  {
    hide IsAlnum;
    if s != "" && s[0] == '-' { StartDropped(s[1..]); }
  }

  lemma {:induction false} EndDropped(s: string)
    requires SlugChars(s)
    ensures DropEndDashes(s) <= s && SlugChars(DropEndDashes(s))
    ensures DropEndDashes(s) != "" ==> IsAlnum(DropEndDashes(s)[|DropEndDashes(s)| - 1])
    decreases |s|
  {
    hide IsAlnum;
    if s != "" && s[|s| - 1] == '-' { EndDropped(s[..|s| - 1]); }
  }

  /** Letters, digits and dashes, with no dash at either end. */
  ghost predicate IsSlug(s: string) {
    s != "" && SlugChars(s) && IsAlnum(s[0]) && IsAlnum(s[|s| - 1])
  }

  lemma SlugifyIsSlug(input: string)
    ensures IsSlug(Slugify(input))
  {
    hide SlugChars, IsAlnum, ReplaceOthers, CollapseDashes, DropStartDashes, DropEndDashes, ToLower, Trim;
    var a := ReplaceOthers(ToLower(Trim(input)));
    ReplacedChars(ToLower(Trim(input)));
    CollapsedChars(a);
    var b := DropStartDashes(CollapseDashes(a));
    StartDropped(CollapseDashes(a));
    EndDropped(b);
    if DropEndDashes(b) != "" { assert DropEndDashes(b)[0] == b[0]; }
    ServiceIsSlug();
  }

  lemma ServiceIsSlug()
    ensures IsSlug("service")
  {
  }

  /** Every generated subdomain is a DNS label of at most 63 characters that ends in its suffix. */
  lemma CandidateIsLabel(input: string, suffix: string)
    requires 1 <= |suffix| <= 50 && forall i :: 0 <= i < |suffix| ==> IsAlnum(suffix[i])
    ensures var name := Candidate(Slugify(input), suffix);
      IsLabel(name) && |name| <= 63 && name[|name| - |suffix|..] == suffix
  {
    SlugifyIsSlug(input);
    hide Slugify;
    SeededIsLabel(Slugify(input), suffix);
  }

  lemma SeededIsLabel(seed: string, suffix: string)
    requires IsSlug(seed)
    requires 1 <= |suffix| <= 50 && forall i :: 0 <= i < |suffix| ==> IsAlnum(suffix[i])
    ensures var name := Candidate(seed, suffix); IsLabel(name) && name[|name| - |suffix|..] == suffix
  {
    hide IsAlnum, DropEndDashes, IsLabel;
    var limit := 62 - |suffix|;
    var cut := if |seed| <= limit then seed else seed[..limit];
    assert SlugChars(cut);
    EndDropped(cut);
    ServiceIsSlug();
    var start := OrService(DropEndDashes(cut));
    assert SlugChars(start) && IsAlnum(start[0]) && |start| <= limit;
    JoinedIsLabel(start, suffix);
  }

  lemma JoinedIsLabel(start: string, suffix: string)
    requires start != "" && SlugChars(start) && IsAlnum(start[0])
    requires suffix != "" && forall i :: 0 <= i < |suffix| ==> IsAlnum(suffix[i])
    requires |start| + 1 + |suffix| <= 63
    ensures var name := start + "-" + suffix; IsLabel(name) && name[|name| - |suffix|..] == suffix
  {
    hide IsAlnum;
    var name := start + "-" + suffix;
    assert forall i :: 0 <= i < |start| ==> name[i] == start[i];
    assert forall i :: |start| < i < |name| ==> name[i] == suffix[i - |start| - 1];
  }

  /** A name that is a slug already, with no two dashes together, is its own. */
  lemma SlugifyFixed(s: string)
    requires IsSlug(s) && forall i :: 0 <= i < |s| - 1 ==> !(s[i] == '-' && s[i + 1] == '-')
    ensures Slugify(s) == s
  {
    SlugTight(s);
    hide IsAlnum, Trim, ToLower;
    ReplaceNothing(s);
    CollapseNothing(s);
    EndsAreAlnum(s);
  }

  lemma SlugTight(s: string)
    requires IsSlug(s)
    ensures Trim(s) == s && ToLower(s) == s
  {
    assert !IsSpace(s[0]) && !IsSpace(s[|s| - 1]);
    hide IsSpace, Trim;
    TrimTight(s);
  }

  lemma EndsAreAlnum(s: string)
    requires IsSlug(s)
    ensures s[0] != '-' && s[|s| - 1] != '-'
  {
  }

  lemma {:induction false} ReplaceNothing(s: string)
    requires SlugChars(s)
    ensures ReplaceOthers(s) == s
  {
    hide IsAlnum;
    if s != "" { ReplaceNothing(s[1..]); }
  }

  lemma {:induction false} CollapseNothing(s: string)
    requires forall i :: 0 <= i < |s| - 1 ==> !(s[i] == '-' && s[i + 1] == '-')
    ensures CollapseDashes(s) == s
  {
    if s != "" { CollapseNothing(s[1..]); }
  }

  // ---- The host a route is served on -----------------------------------------------

  ghost predicate LabelChars(s: string) {
    s != "" && forall i :: 0 <= i < |s| ==> IsHostChar(s[i])
  }

  lemma LabelFixed(s: string)
    requires LabelChars(s)
    ensures HostGroups.Label(s) == s
  {
    HostCharIsPlain(s[0]);
    HostCharIsPlain(s[|s| - 1]);
    forall i | 0 <= i < |s| ensures ToLower(s)[i] == s[i] { HostCharIsPlain(s[i]); }
    hide IsSpace, Trim, ToLower;
    TrimTight(s);
  }

  /** The configuration that is generated serves a resolved route on the very host it was asked for. */
  lemma ServedWhereResolved(host: string, domains: seq<DomainRow>)
    requires IsHostname(host) && Resolve(host, domains).Some?
    ensures var m := Resolve(host, domains).value;
      HostGroups.ResolveRouteHostname(m.domain.hostname, m.subdomain) == Some(host)
  {
    ResolvedHost(host, domains);
    HostnameShaped(host);
    var m := Resolve(host, domains).value;
    hide IsHostname, Resolve;
    if IsWildcard(m.domain.hostname) {
      SubdomainChars(m.subdomain, m.domain.hostname[2..], host);
      LabelFixed(m.subdomain);
    }
  }

  lemma SubdomainChars(sub: string, base: string, host: string)
    requires sub != "" && host == sub + "." + base && HostShaped(host)
    ensures LabelChars(sub)
  {
    hide IsHostChar;
    assert forall i :: 0 <= i < |sub| ==> sub[i] == host[i];
  }
}
