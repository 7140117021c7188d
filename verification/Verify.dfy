/**
 Waiting until a service is live (siteyctl/src/verify.ts).

 What the network answers is a parameter: for each poll what is loaded and what the probes
 find, for each fetch the response. The clock is an object that may move on by itself at
 any time and moves on by at least each sleep.
 */
module Verify {
  import opened Wrappers

  datatype CheckState = Pass | Pending | Fail

  datatype CheckName = Service | Deploy | Tls | Http

  datatype Check = Check(name: CheckName, target: string, state: CheckState)

  datatype Deployment = Deployment(id: string, status: string)

  datatype LiveInput = LiveInput(active: bool, deployment: Option<Deployment>, routes: seq<string>)

  datatype Report = Report(state: CheckState, live: bool, checks: seq<Check>)

  /** The probes, and the hostname of a URL. */
  datatype Probes = Probes(tls: string -> CheckState, http: string -> CheckState, hostname: string -> string)

  datatype Poll = Poll(input: LiveInput, probes: Probes)

  // ---- One round of checks ---------------------------------------------------------

  function RouteUrl(route: string): string {
    if "http://" <= route then route else "https://" + route
  }

  function DeploymentCheck(deployment: Option<Deployment>): Check {
    match deployment
    case None => Check(Deploy, "", Fail)
    case Some(d) =>
      Check(Deploy, d.id, if d.status == "success" then Pass else if d.status == "failed" then Fail else Pending)
  }

  /** The checks of one route: the certificate, unless it is plain HTTP, then the page. */
  function RouteChecks(route: string, probes: Probes): seq<Check> {
    var url := RouteUrl(route);
    (if "https://" <= url then [Check(Tls, probes.hostname(url), probes.tls(probes.hostname(url)))] else [])
    + [Check(Http, url, probes.http(url))]
  }

  function AllRouteChecks(routes: seq<string>, probes: Probes): seq<Check> {
    if routes == [] then []
    else AllRouteChecks(routes[..|routes| - 1], probes) + RouteChecks(routes[|routes| - 1], probes)
  }

  predicate Any(checks: seq<Check>, state: CheckState) {
    exists i :: 0 <= i < |checks| && checks[i].state == state
  }

  /** `runChecks` */
  function RunChecks(poll: Poll): Report {
    var input, deploy := poll.input, DeploymentCheck(poll.input.deployment);
    if !input.active then Report(Fail, false, [Check(Service, "", Fail)])
    else if deploy.state != Pass then Report(deploy.state, false, [deploy])
    else if input.routes == [] then Report(Fail, false, [deploy, Check(Service, "", Fail)])
    else
      var checks := [deploy] + AllRouteChecks(input.routes, poll.probes);
      var state := if Any(checks, Fail) then Fail else if Any(checks, Pending) then Pending else Pass;
      Report(state, state == Pass, checks)
  }

  /** A deactivated service, a failed or missing deployment, or no route: nothing that waiting could change. */
  predicate HardFailure(report: Report) {
    exists i :: 0 <= i < |report.checks|
      && report.checks[i].state == Fail && (report.checks[i].name == Deploy || report.checks[i].name == Service)
  }

  /** What a visitor of a route needs: a page, and a certificate unless it is plain HTTP. */
  ghost predicate RouteLive(route: string, probes: Probes) {
    && probes.http(RouteUrl(route)) == Pass
    && ("https://" <= RouteUrl(route) ==> probes.tls(probes.hostname(RouteUrl(route))) == Pass)
  }

  lemma {:induction false} RoutePasses(route: string, probes: Probes)
    ensures RouteLive(route, probes) <==>
            forall i :: 0 <= i < |RouteChecks(route, probes)| ==> RouteChecks(route, probes)[i].state == Pass
  {
    var checks := RouteChecks(route, probes);
    assert checks[|checks| - 1].state == probes.http(RouteUrl(route));
    if "https://" <= RouteUrl(route) { assert checks[0].state == probes.tls(probes.hostname(RouteUrl(route))); }
  }

  lemma {:induction false} RoutesPass(routes: seq<string>, probes: Probes)
    ensures (forall i :: 0 <= i < |AllRouteChecks(routes, probes)| ==> AllRouteChecks(routes, probes)[i].state == Pass)
       <==> (forall k :: 0 <= k < |routes| ==> RouteLive(routes[k], probes))
    decreases |routes|
  {
    hide RouteLive, RouteChecks;
    if routes != [] {
      var init, last := routes[..|routes| - 1], routes[|routes| - 1];
      RoutesPass(init, probes);
      RoutePasses(last, probes);
      PassThen(AllRouteChecks(init, probes), RouteChecks(last, probes));
      assert AllRouteChecks(routes, probes) == AllRouteChecks(init, probes) + RouteChecks(last, probes);
      assert routes[|init|] == last;
      assert forall k :: 0 <= k < |init| ==> init[k] == routes[k];
    }
  }

  lemma PassThen(a: seq<Check>, b: seq<Check>)
    ensures (forall i :: 0 <= i < |a + b| ==> (a + b)[i].state == Pass) <==>
              && (forall i :: 0 <= i < |a| ==> a[i].state == Pass)
              && (forall i :: 0 <= i < |b| ==> b[i].state == Pass)
  {
    var all := a + b;
    assert forall i :: 0 <= i < |a| ==> all[i] == a[i];
    assert forall i :: 0 <= i < |b| ==> all[|a| + i] == b[i];
  }

  /**
   A service is reported live exactly when it is active, its deployment succeeded, and it has
   a route and every one of its routes is served.
   */
  lemma {:induction false} LiveMeans(poll: Poll)
    ensures var input := poll.input;
      RunChecks(poll).live <==>
        && input.active
        && input.deployment.Some? && input.deployment.value.status == "success"
        && input.routes != []
        && forall k :: 0 <= k < |input.routes| ==> RouteLive(input.routes[k], poll.probes)
    ensures RunChecks(poll).live <==> RunChecks(poll).state == Pass
  {
    RoutesPass(poll.input.routes, poll.probes);
    hide RouteLive, AllRouteChecks;
    var deploy := DeploymentCheck(poll.input.deployment);
    var routed := AllRouteChecks(poll.input.routes, poll.probes);
    var checks := [deploy] + routed;
    assert deploy.state == Pass ==> checks[0].state == Pass;
    assert forall i :: 0 <= i < |routed| ==> checks[i + 1] == routed[i];
    assert forall i :: 0 < i < |checks| ==> checks[i] == routed[i - 1];
    AllPass(checks);
  }

  lemma AllPass(checks: seq<Check>)
    ensures (!Any(checks, Fail) && !Any(checks, Pending)) <==> forall i :: 0 <= i < |checks| ==> checks[i].state == Pass
  {
  }

  lemma {:induction false} RouteNames(routes: seq<string>, probes: Probes)
    ensures forall i :: 0 <= i < |AllRouteChecks(routes, probes)| ==>
              AllRouteChecks(routes, probes)[i].name == Tls || AllRouteChecks(routes, probes)[i].name == Http
    decreases |routes|
  {
    if routes != [] { RouteNames(routes[..|routes| - 1], probes); }
  }

  /** A failure is hard exactly when it is not the routes that failed. */
  lemma {:induction false} HardFailureMeans(poll: Poll)
    ensures var input := poll.input;
      HardFailure(RunChecks(poll)) <==>
        || !input.active
        || input.deployment.None? || input.deployment.value.status == "failed"
        || (input.deployment.value.status == "success" && input.routes == [])
  {
    var report, deploy := RunChecks(poll), DeploymentCheck(poll.input.deployment);
    RouteNames(poll.input.routes, poll.probes);
    hide AllRouteChecks, Any;
    if !poll.input.active {
      assert report.checks[0] == Check(Service, "", Fail);
    } else if deploy.state != Pass {
      assert report.checks[0] == deploy;
    } else if poll.input.routes == [] {
      assert report.checks[1] == Check(Service, "", Fail);
    } else {
      var routed := AllRouteChecks(poll.input.routes, poll.probes);
      assert report.checks[0] == deploy;
      assert forall i :: 0 < i < |report.checks| ==> report.checks[i] == routed[i - 1];
    }
  }

  /** A route on which one of the checks came out like this. */
  ghost predicate RouteHas(route: string, probes: Probes, state: CheckState) {
    || probes.http(RouteUrl(route)) == state
    || ("https://" <= RouteUrl(route) && probes.tls(probes.hostname(RouteUrl(route))) == state)
  }

  lemma RouteAny(route: string, probes: Probes, state: CheckState)
    ensures Any(RouteChecks(route, probes), state) <==> RouteHas(route, probes, state)
  {
    var checks := RouteChecks(route, probes);
    assert checks[|checks| - 1].state == probes.http(RouteUrl(route));
    if "https://" <= RouteUrl(route) { assert checks[0].state == probes.tls(probes.hostname(RouteUrl(route))); }
  }

  lemma AnyThen(a: seq<Check>, b: seq<Check>, state: CheckState)
    ensures Any(a + b, state) <==> Any(a, state) || Any(b, state)
  {
    var all := a + b;
    if i :| 0 <= i < |a| && a[i].state == state { assert all[i] == a[i]; }
    if i :| 0 <= i < |b| && b[i].state == state { assert all[|a| + i] == b[i]; }
    if i :| 0 <= i < |all| && all[i].state == state { assert all[i] == if i < |a| then a[i] else b[i - |a|]; }
  }

  lemma {:induction false} RoutesAny(routes: seq<string>, probes: Probes, state: CheckState)
    ensures Any(AllRouteChecks(routes, probes), state) <==>
            exists k :: 0 <= k < |routes| && RouteHas(routes[k], probes, state)
    decreases |routes|
  {
    hide RouteHas, RouteChecks, Any;
    if routes == [] {
      NoChecks(state);
    } else {
      var init, last := routes[..|routes| - 1], routes[|routes| - 1];
      RoutesAny(init, probes, state);
      RouteAny(last, probes, state);
      AnyThen(AllRouteChecks(init, probes), RouteChecks(last, probes), state);
      assert forall k :: 0 <= k < |init| ==> init[k] == routes[k];
    }
  }

  lemma NoChecks(state: CheckState)
    ensures !Any([], state)
  {
  }

  lemma OneCheck(check: Check, state: CheckState)
    ensures Any([check], state) <==> check.state == state
  {
    assert [check][0] == check;
  }

  /** Nothing that waiting could change is wrong, and the deployment has succeeded. */
  predicate Deployed(input: LiveInput) {
    input.active && input.deployment.Some? && input.deployment.value.status == "success" && input.routes != []
  }

  ghost predicate SomeRoute(poll: Poll, state: CheckState) {
    exists k :: 0 <= k < |poll.input.routes| && RouteHas(poll.input.routes[k], poll.probes, state)
  }

  lemma DeployedState(poll: Poll)
    requires Deployed(poll.input)
    ensures RunChecks(poll).state ==
            if SomeRoute(poll, Fail) then Fail else if SomeRoute(poll, Pending) then Pending else Pass
  {
    var deploy, routed := DeploymentCheck(poll.input.deployment), AllRouteChecks(poll.input.routes, poll.probes);
    RoutesAny(poll.input.routes, poll.probes, Fail);
    RoutesAny(poll.input.routes, poll.probes, Pending);
    OneCheck(deploy, Fail);
    OneCheck(deploy, Pending);
    AnyThen([deploy], routed, Fail);
    AnyThen([deploy], routed, Pending);
    hide AllRouteChecks, Any, RouteHas;
  }

  /**
   A report fails if the service is off, its deployment failed or is missing, it has no route
   when it is deployed, or some check of a route failed; else it is pending if the deployment
   has not ended, or some check of a route is pending.
   */
  lemma StateMeans(poll: Poll)
    ensures var input := poll.input;
      RunChecks(poll).state ==
        if !input.active || input.deployment.None? || input.deployment.value.status == "failed" then Fail
        else if input.deployment.value.status != "success" then Pending
        else if input.routes == [] || SomeRoute(poll, Fail) then Fail
        else if SomeRoute(poll, Pending) then Pending
        else Pass
  {
    hide SomeRoute, Any, AllRouteChecks;
    if Deployed(poll.input) { DeployedState(poll); }
  }

  // ---- Following redirects ---------------------------------------------------------

  const MAX_REDIRECTS := 5

  datatype Url = Url(protocol: string, hostname: string, rest: string)

  /** The `Location` of a response, resolved against the address it came from. */
  datatype Location = NoLocation | Unreadable | To(url: Url)

  datatype Fetched = NoAnswer | Response(status: int, location: Location, pendingPage: bool, service: Option<string>)

  /** What one response means: go on, or an end. A `Location` that is no URL throws. */
  datatype Hop = Follow(next: Url) | Astray | Throws | End(state: CheckState)

  function HopOf(current: Url, f: Fetched, service: Option<string>): Hop {
    if f.NoAnswer? then End(Pending)
    else if 300 <= f.status < 400 && !f.location.NoLocation? then
      if f.location.Unreadable? then Throws
      else
        var next := f.location.url;
        var allowedScheme :=
          next.protocol == current.protocol || (current.protocol == "http:" && next.protocol == "https:");
        if next.hostname != current.hostname || !allowedScheme then Astray else Follow(next)
    else if f.pendingPage then End(Pending)
    else if 200 <= f.status < 300 then End(if service.Some? && f.service != service then Fail else Pass)
    else if f.status in {502, 503, 504} then End(Pending)
    else End(Fail)
  }

  datatype Probe = Checked(state: CheckState) | Threw

  /** Where the requests go, from request number `hop` on. */
  function Walk(current: Url, hop: nat, service: Option<string>, fetch: (nat, Url) -> Fetched): (r: seq<Url>)
    requires hop <= MAX_REDIRECTS
    ensures r != [] && r[0] == current && |r| <= 6 - hop
    decreases MAX_REDIRECTS - hop
  {
    var next := HopOf(current, fetch(hop, current), service);
    if next.Follow? && hop < MAX_REDIRECTS then [current] + Walk(next.next, hop + 1, service, fetch) else [current]
  }

  /** What a probe finds from request number `hop` on: a redirect too many fails. */
  function Found(current: Url, hop: nat, service: Option<string>, fetch: (nat, Url) -> Fetched): Probe
    requires hop <= MAX_REDIRECTS
    decreases MAX_REDIRECTS - hop
  {
    match HopOf(current, fetch(hop, current), service)
    case End(state) => Checked(state)
    case Astray => Checked(Fail)
    case Throws => Threw
    case Follow(next) => if hop < MAX_REDIRECTS then Found(next, hop + 1, service, fetch) else Checked(Fail)
  }

  /** One turn of the loop. */
  lemma ProbeTurn(current: Url, hop: nat, service: Option<string>, fetch: (nat, Url) -> Fetched)
    requires hop <= MAX_REDIRECTS
    ensures var next := HopOf(current, fetch(hop, current), service);
      var visited, found := Walk(current, hop, service, fetch), Found(current, hop, service, fetch);
      if next.Follow? && hop < MAX_REDIRECTS then
        && visited == [current] + Walk(next.next, hop + 1, service, fetch)
        && found == Found(next.next, hop + 1, service, fetch)
      else
        && visited == [current]
        && found == if next.End? then Checked(next.state) else if next.Throws? then Threw else Checked(Fail)
  {
    hide HopOf;
  }

  /** `probeHttp`. `fetch` answers the n-th request; `requests` are the addresses asked. */
  method ProbeHttp(url: Url, service: Option<string>, fetch: (nat, Url) -> Fetched)
      returns (r: Probe, ghost requests: seq<Url>)
    ensures r == Found(url, 0, service, fetch)
    ensures requests == Walk(url, 0, service, fetch)
  {
    hide HopOf, Walk, Found;
    var current, hop := url, 0;
    requests := [];
    while true
      invariant hop <= MAX_REDIRECTS && Found(current, hop, service, fetch) == Found(url, 0, service, fetch)
      invariant Walk(url, 0, service, fetch) == requests + Walk(current, hop, service, fetch)
      decreases MAX_REDIRECTS - hop
    {
      ProbeTurn(current, hop, service, fetch);
      requests := requests + [current];
      match HopOf(current, fetch(hop, current), service)
      case End(state) => return Checked(state), requests;
      case Astray => return Checked(Fail), requests;
      case Throws => return Threw, requests;
      case Follow(next) =>
        if hop >= MAX_REDIRECTS {
          return Checked(Fail), requests;
        }
        current := next;
        hop := hop + 1;
    }
  }

  /** Each request but the last was redirected to the next, and the last was not, or was one too many. */
  lemma {:induction false} WalkFollows(current: Url, hop: nat, service: Option<string>, fetch: (nat, Url) -> Fetched,
                                       i: nat)
    requires hop <= MAX_REDIRECTS && i < |Walk(current, hop, service, fetch)|
    ensures var visited := Walk(current, hop, service, fetch);
      var next := HopOf(visited[i], fetch(hop + i, visited[i]), service);
      && (i < |visited| - 1 ==> next == Follow(visited[i + 1]))
      && (i == |visited| - 1 ==> !next.Follow? || hop + i == 5)
    decreases i
  {
    hide HopOf, Walk, Found;
    ProbeTurn(current, hop, service, fetch);
    var next := HopOf(current, fetch(hop, current), service);
    if next.Follow? && hop < MAX_REDIRECTS {
      if i > 0 {
        WalkFollows(next.next, hop + 1, service, fetch, i - 1);
      }
    }
  }

  /** The last response decides. */
  lemma {:induction false} LastDecides(current: Url, hop: nat, service: Option<string>, fetch: (nat, Url) -> Fetched)
    requires hop <= MAX_REDIRECTS
    ensures var visited := Walk(current, hop, service, fetch); var last := |visited| - 1;
      Found(current, hop, service, fetch) ==
        match HopOf(visited[last], fetch(hop + last, visited[last]), service)
        case End(state) => Checked(state)
        case Astray => Checked(Fail)
        case Throws => Threw
        case Follow(_) => Checked(Fail)
    decreases MAX_REDIRECTS - hop
  {
    hide HopOf, Walk, Found;
    ProbeTurn(current, hop, service, fetch);
    var next := HopOf(current, fetch(hop, current), service);
    if next.Follow? && hop < MAX_REDIRECTS {
      LastDecides(next.next, hop + 1, service, fetch);
    }
  }

  /** A walk never leaves its host, and once on HTTPS it stays there. */
  lemma {:induction false} WalkStaysHome(url: Url, service: Option<string>, fetch: (nat, Url) -> Fetched, i: nat)
    requires i < |Walk(url, 0, service, fetch)|
    ensures var at := Walk(url, 0, service, fetch)[i];
      && at.hostname == url.hostname
      && (at.protocol == url.protocol || (url.protocol == "http:" && at.protocol == "https:"))
  {
    if i > 0 {
      WalkStaysHome(url, service, fetch, i - 1);
      WalkFollows(url, 0, service, fetch, i - 1);
    }
  }

  /**
   A page passes exactly when the last response of its walk is a 2xx answer that is not
   the placeholder and is the service's own; and that answer came from the route's host.
   */
  lemma PassIsServed(url: Url, service: Option<string>, fetch: (nat, Url) -> Fetched)
    ensures var visited := Walk(url, 0, service, fetch);
      var at := visited[|visited| - 1];
      var answer := fetch(|visited| - 1, at);
      && (Found(url, 0, service, fetch) == Checked(Pass) <==>
            answer.Response? && 200 <= answer.status < 300 && !answer.pendingPage
            && (service.Some? ==> answer.service == service))
      && at.hostname == url.hostname
      && (url.protocol == "https:" ==> at.protocol == "https:")
  {
    hide Walk, Found;
    var visited := Walk(url, 0, service, fetch);
    LastDecides(url, 0, service, fetch);
    WalkStaysHome(url, service, fetch, |visited| - 1);
  }

  /** A 3xx answer that says where to go. */
  predicate Redirects(f: Fetched) {
    f.Response? && 300 <= f.status <= 399 && f.location != NoLocation
  }

  /** One redirect too many or a wrong one, another service's page, or any other status. */
  predicate Fails(f: Fetched, service: Option<string>)
    requires f.Response?
  {
    if Redirects(f) then f.location != Unreadable
    else
      && !f.pendingPage && f.status !in {502, 503, 504}
      && (200 <= f.status <= 299 ==> service.Some? && f.service != service)
  }

  /**
   What a probe finds otherwise: it is pending when the last request got no answer, the
   placeholder, or a 502, 503 or 504; it throws at a redirect to no URL; and it fails at one
   too many, one that leaves the host or HTTPS, another service's page, or any other status.
   */
  lemma AnswerMeans(url: Url, service: Option<string>, fetch: (nat, Url) -> Fetched)
    ensures var visited := Walk(url, 0, service, fetch);
      var at := visited[|visited| - 1];
      var answer := fetch(|visited| - 1, at);
      && (Found(url, 0, service, fetch) == Checked(Pending) <==>
            answer == NoAnswer || (!Redirects(answer) && (answer.pendingPage || answer.status in {502, 503, 504})))
      && (Found(url, 0, service, fetch) == Threw <==> Redirects(answer) && answer.location == Unreadable)
      && |visited| <= 6
      && (answer.Response? && |visited| < 6 ==> forall next :: HopOf(at, answer, service) != Follow(next))
      && (Found(url, 0, service, fetch) == Checked(Fail) <==> answer.Response? && Fails(answer, service))
  {
    hide Walk, Found;
    var visited := Walk(url, 0, service, fetch);
    LastDecides(url, 0, service, fetch);
    WalkFollows(url, 0, service, fetch, |visited| - 1);
  }

  /** A redirect is followed exactly if it stays on the host and keeps the protocol or goes from HTTP to HTTPS. */
  lemma RedirectMeans(current: Url, f: Fetched, service: Option<string>, next: Url)
    ensures HopOf(current, f, service) == Follow(next) <==>
      && Redirects(f) && f.location == To(next) && next.hostname == current.hostname
      && (next.protocol == current.protocol || (current.protocol, next.protocol) == ("http:", "https:"))
  {
  }

  // ---- Waiting ---------------------------------------------------------------------

  class Clock {
    var time: int
    ghost var slept: int

    constructor ()
      ensures slept == 0
    {
      time, slept := *, 0;
    }

    /** `now()`, which may have moved on since it was last asked. */
    method Now() returns (t: int)
      modifies this`time
      ensures t == time && time >= old(time)
    {
      var passed :| passed >= 0;
      time := time + passed;
      t := time;
    }

    /** `sleep(ms)`, which lasts at least that long. */
    method Sleep(ms: int)
      requires ms >= 0
      modifies this
      ensures time >= old(time) + ms && slept == old(slept) + ms
    {
      var longer :| longer >= 0;
      time := time + ms + longer;
      slept := slept + ms;
    }
  }

  /** `ceil(a / b)` */
  function CeilDiv(a: int, b: int): int
    requires b > 0
  {
    (a + b - 1) / b
  }

  lemma CeilBound(k: nat, a: int, b: int)
    requires b > 0 && k * b < a
    ensures k + 1 <= CeilDiv(a, b)
  {
    assert (k + 1) * b <= a + b - 1;
    DivideBound(k + 1, a + b - 1, b);
  }

  lemma DivideBound(k: int, a: int, b: int)
    requires b > 0 && k * b <= a
    ensures k <= a / b
  {
    assert (a / b + 1 - k) * b > 0;
    PositiveFactor(a / b + 1 - k, b);
  }

  lemma PositiveFactor(x: int, b: int)
    requires b > 0 && x * b > 0
    ensures x > 0
  {
    if x <= 0 { NoPositiveProduct(x, b); }
  }

  lemma NoPositiveProduct(x: int, b: int)
    requires x <= 0 && b > 0
    ensures x * b <= 0
  {
  }

  /** How many polls in a row, up to the last, have failed. */
  function FailuresInARow(polls: seq<Report>): nat {
    if polls == [] || polls[|polls| - 1].state != Fail then 0 else 1 + FailuresInARow(polls[..|polls| - 1])
  }

  /** A poll that ends the waiting: live, failed for good, or failed too often. */
  predicate Decisive(polls: seq<Report>, failAfterPolls: int)
    requires polls != []
  {
    var last := polls[|polls| - 1];
    last.state == Pass || (last.state == Fail && (HardFailure(last) || FailuresInARow(polls) >= failAfterPolls))
  }

  /** What each poll found, the first decisive one being the last if there is one. */
  ghost predicate Polled(world: nat -> Poll, polls: seq<Report>, failAfterPolls: int) {
    && (forall i :: 0 <= i < |polls| ==> polls[i] == RunChecks(world(i)))
    && (forall n :: 0 < n < |polls| ==> !Decisive(polls[..n], failAfterPolls))
  }

  ghost predicate Undecided(world: nat -> Poll, polls: seq<Report>, failAfterPolls: int) {
    Polled(world, polls, failAfterPolls) && (polls != [] ==> !Decisive(polls, failAfterPolls))
  }

  lemma {:induction false} NextPoll(world: nat -> Poll, polls: seq<Report>, failAfterPolls: int, report: Report)
    requires Undecided(world, polls, failAfterPolls) && report == RunChecks(world(|polls|))
    ensures Polled(world, polls + [report], failAfterPolls)
    ensures FailuresInARow(polls + [report]) == if report.state == Fail then FailuresInARow(polls) + 1 else 0
  {
    var more := polls + [report];
    assert more[..|polls|] == polls;
    hide RunChecks, Decisive;
    assert polls[..|polls|] == polls;
    assert forall n :: 0 < n < |more| ==> more[..n] == polls[..n];
  }

  /**
   `waitForLive`. `world` is what each poll finds. The waiting ends with the first decisive
   poll, or with the first poll after which the time is up, whichever is first; it takes at
   most `ceil(timeout / interval) + 1` polls and never asks to sleep longer than the timeout.
   */
  method WaitForLive(world: nat -> Poll, timeoutMs: int, intervalMs: int, failAfterPolls: int, clock: Clock)
      returns (report: Report, timedOut: bool, ghost polls: seq<Report>, ghost started: int)
    requires intervalMs > 0
    modifies clock
    ensures polls != [] && report == polls[|polls| - 1]
    ensures Polled(world, polls, failAfterPolls)
    ensures |polls| <= CeilDiv(Max(0, timeoutMs), intervalMs) + 1
    ensures clock.slept - old(clock.slept) <= Max(0, timeoutMs)
    ensures !timedOut <==> Decisive(polls, failAfterPolls)
    ensures old(clock.time) <= started && (timedOut ==> clock.time - started >= timeoutMs)
  {
    hide RunChecks, HardFailure, CeilDiv, FailuresInARow, Polled;
    var start := clock.Now();
    started := start;
    var polled := 0;
    var routeFailures := 0;
    polls := [];
    NothingPolled(world, failAfterPolls);
    CeilNonNegative(Max(0, timeoutMs), intervalMs);
    while true
      invariant polled == |polls| <= CeilDiv(Max(0, timeoutMs), intervalMs)
      invariant Undecided(world, polls, failAfterPolls) && routeFailures == FailuresInARow(polls)
      invariant clock.time - start >= Min(polled * intervalMs, timeoutMs)
      invariant 0 <= clock.slept - old(clock.slept) <= Min(Max(0, timeoutMs), clock.time - start)
      invariant old(clock.time) <= started == start
      decreases CeilDiv(Max(0, timeoutMs), intervalMs) - polled
    {
      report := RunChecks(world(polled));
      polled := polled + 1;
      NextPoll(world, polls, failAfterPolls, report);
      polls := polls + [report];
      if report.state == Pass { return report, false, polls, started; }
      if report.state == Fail {
        routeFailures := routeFailures + 1;
        if HardFailure(report) || routeFailures >= failAfterPolls { return report, false, polls, started; }
      } else {
        routeFailures := 0;
      }
      var t := clock.Now();
      if t - start >= timeoutMs { return report, true, polls, started; }
      NotYet(polled, timeoutMs, intervalMs);
      t := clock.Now();
      clock.Sleep(Min(intervalMs, Max(0, timeoutMs - (t - start))));
    }
  }

  /** Before the time is up there have been fewer polls than intervals begun. */
  lemma NotYet(polled: nat, timeoutMs: int, intervalMs: int)
    requires intervalMs > 0 && polled > 0 && (polled - 1) * intervalMs < timeoutMs
    ensures polled <= CeilDiv(Max(0, timeoutMs), intervalMs)
    ensures polled * intervalMs == (polled - 1) * intervalMs + intervalMs
  {
    assert timeoutMs > 0 by { Product(polled - 1, intervalMs); }
    CeilBound(polled - 1, timeoutMs, intervalMs);
  }

  lemma Product(k: nat, b: int)
    requires b > 0
    ensures k * b >= 0
  {
  }

  lemma {:induction false} NothingPolled(world: nat -> Poll, failAfterPolls: int)
    ensures Undecided(world, [], failAfterPolls) && FailuresInARow([]) == 0
  {
  }

  lemma CeilNonNegative(a: nat, b: int)
    requires b > 0
    ensures CeilDiv(a, b) >= 0
  {
    DivideBound(0, a + b - 1, b);
  }

  lemma {:induction false} FailuresCount(polls: seq<Report>)
    ensures FailuresInARow(polls) <= |polls|
    decreases |polls|
  {
    if polls != [] { FailuresCount(polls[..|polls| - 1]); }
  }

  /** Polls counted as failures in a row are the last ones, and each of them failed. */
  lemma {:induction false} FailuresAreConsecutive(polls: seq<Report>, i: nat)
    requires |polls| - FailuresInARow(polls) <= i < |polls|
    ensures polls[i].state == Fail
    decreases |polls|
  {
    if i < |polls| - 1 { FailuresAreConsecutive(polls[..|polls| - 1], i); }
  }

  /** A failure reported for the routes alone is one of at least that many polls in a row. */
  lemma {:induction false} SoftFailureRepeats(polls: seq<Report>, failAfterPolls: int, i: nat)
    requires polls != [] && Decisive(polls, failAfterPolls)
    requires polls[|polls| - 1].state == Fail && !HardFailure(polls[|polls| - 1])
    requires |polls| - failAfterPolls <= i < |polls|
    ensures failAfterPolls <= |polls| && polls[i].state == Fail
  {
    hide FailuresInARow, HardFailure;
    FailuresCount(polls);
    FailuresAreConsecutive(polls, i);
  }
}
