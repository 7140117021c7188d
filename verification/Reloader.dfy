/**
 `CaddyReloader` (caddy.ts) and the management origin it commits.

 Every call of `reload` that finds no flight under way starts an asynchronous function of
 its own. Nothing in the state says that only one of them runs: `fibers` holds whichever
 are under way, each stopped at an `await`, and the events resume any of them. That builds
 and pushes never overlap is a result.

 `time` counts the events, and marks when a call was made and when a build started.
 */
module Reloader {
  import opened Wrappers

  datatype Built = Built(caddyfile: string, origin: Option<string>)

  /** Where an asynchronous function waits. */
  datatype Phase = Scheduled | Building(since: nat) | Pushing(since: nat, built: Built)

  /** How a promise settled, and when the last build of its flight started. */
  datatype Outcome = Resolved(since: nat) | Rejected(since: nat)

  /** A caller, and the promise it was given. */
  datatype Caller = Caller(time: nat, flight: nat)

  datatype Accepted = Accepted(since: nat, built: Built)

  /** A build that was started. */
  datatype Round = Round(flight: nat, since: nat)

  datatype State = State(
    inFlight: Option<nat>, reloadQueued: bool,
    lastPushed: Option<string>, nextOrigin: Option<string>, lastOrigin: Option<string>,
    time: nat, fibers: map<nat, Phase>, flights: nat,
    callers: seq<Caller>, settled: map<nat, Outcome>, accepted: seq<Accepted>, rounds: seq<Round>)

  const NEW := State(None, false, None, None, None, 0, map[], 0, [], map[], [], [])

  datatype Event =
    | Call
    | Start(f: nat)
    | BuildOk(f: nat, built: Built)
    | BuildFail(f: nat)
    | PushOk(f: nat)
    | PushFail(f: nat)

  // ---- One event -------------------------------------------------------------------

  /** `reload`: join the flight under way and ask for another round, or start a flight. */
  function Reload(s: State): State {
    match s.inFlight
    case Some(f) => s.(reloadQueued := true, callers := s.callers + [Caller(s.time, f)])
    case None =>
      s.(inFlight := Some(s.flights), flights := s.flights + 1,
         fibers := s.fibers[s.flights := Scheduled],
         callers := s.callers + [Caller(s.time, s.flights)])
  }

  /** The top of the loop: take the request and start a build. */
  function NextRound(s: State, f: nat): State {
    s.(reloadQueued := false, fibers := s.fibers[f := Building(s.time)], rounds := s.rounds + [Round(f, s.time)])
  }

  /** The `finally` block, and the promise settles. */
  function Land(s: State, f: nat, outcome: Outcome): State {
    s.(inFlight := None, fibers := s.fibers - {f}, settled := s.settled[f := outcome])
  }

  /** The push was accepted: commit, then go round again if anyone asked. */
  function Commit(s: State, f: nat, since: nat, built: Built): State {
    var t := s.(lastOrigin := s.nextOrigin, lastPushed := Some(built.caddyfile),
                accepted := s.accepted + [Accepted(since, built)]);
    if s.reloadQueued then NextRound(t, f) else Land(t, f, Resolved(since))
  }

  /** Whether `e` can happen: a function goes on only from where it waits. */
  predicate Enabled(s: State, e: Event) {
    match e
    case Call => true
    case Start(f) => f in s.fibers && s.fibers[f].Scheduled?
    case BuildOk(f, _) => f in s.fibers && s.fibers[f].Building?
    case BuildFail(f) => f in s.fibers && s.fibers[f].Building?
    case PushOk(f) => f in s.fibers && s.fibers[f].Pushing?
    case PushFail(f) => f in s.fibers && s.fibers[f].Pushing?
  }

  function Step(s: State, e: Event): State
    requires Enabled(s, e)
  {
    match e
    case Call => Reload(s)
    case Start(f) => NextRound(s, f)
    case BuildOk(f, built) => s.(nextOrigin := built.origin, fibers := s.fibers[f := Pushing(s.fibers[f].since, built)])
    case BuildFail(f) => Land(s, f, Rejected(s.fibers[f].since))
    case PushOk(f) => Commit(s, f, s.fibers[f].since, s.fibers[f].built)
    case PushFail(f) => Land(s, f, Rejected(s.fibers[f].since))
  }

  function Apply(s: State, e: Event): State {
    if Enabled(s, e) then Step(s, e).(time := s.time + 1) else s
  }

  function Run(events: seq<Event>): State {
    if events == [] then NEW else Apply(Run(events[..|events| - 1]), events[|events| - 1])
  }

  /** The source's class, with one method for what happens between two awaits. */
  class CaddyReloader {
    var lastPushedCaddyfile: Option<string>
    var inFlight: Option<nat>
    var reloadQueued: bool
    var nextManagementOrigin: Option<string>
    var managementOrigin: Option<string>
    ghost var history: State

    ghost predicate Tracked()
      reads this
    {
      && history.inFlight == inFlight && history.reloadQueued == reloadQueued
      && history.lastPushed == lastPushedCaddyfile
      && history.nextOrigin == nextManagementOrigin && history.lastOrigin == managementOrigin
    }

    constructor ()
      ensures Tracked() && history == NEW
    {
      lastPushedCaddyfile, inFlight, reloadQueued := None, None, false;
      nextManagementOrigin, managementOrigin := None, None;
      history := NEW;
    }

    /** `flight` is the promise a new flight would have. */
    method Reload(flight: nat) returns (promise: nat)
      requires Tracked() && flight == history.flights
      modifies this
      ensures Tracked() && history == Apply(old(history), Call)
      ensures history.callers == old(history.callers) + [Caller(old(history.time), promise)]
    {
      history := Apply(history, Call);
      if inFlight.Some? {
        reloadQueued := true;
        return inFlight.value;
      }
      inFlight := Some(flight);
      promise := flight;
    }

    method Start(f: nat)
      requires Tracked() && Enabled(history, Event.Start(f))
      modifies this
      ensures Tracked() && history == Apply(old(history), Event.Start(f))
    {
      history := Apply(history, Event.Start(f));
      reloadQueued := false;
    }

    /** `built` is what the build gave, if it did not throw. */
    method BuildReturns(f: nat, built: Option<Built>)
      requires Tracked() && f in history.fibers && history.fibers[f].Building?
      modifies this
      ensures Tracked()
      ensures history == Apply(old(history), if built.Some? then BuildOk(f, built.value) else BuildFail(f))
    {
      history := Apply(history, if built.Some? then BuildOk(f, built.value) else BuildFail(f));
      if built.Some? {
        nextManagementOrigin := built.value.origin;
      } else {
        inFlight := None;
      }
    }

    method PushReturns(f: nat, caddyfile: string, ok: bool)
      requires Tracked() && f in history.fibers && history.fibers[f].Pushing?
      requires caddyfile == history.fibers[f].built.caddyfile
      modifies this
      ensures Tracked() && history == Apply(old(history), if ok then PushOk(f) else PushFail(f))
    {
      history := Apply(history, if ok then PushOk(f) else PushFail(f));
      if ok {
        managementOrigin := nextManagementOrigin;
        lastPushedCaddyfile := Some(caddyfile);
        if reloadQueued {
          reloadQueued := false;
          return;
        }
      }
      inFlight := None;
    }
  }

  // ---- What every event keeps ------------------------------------------------------

  /** Only the flight that holds the lock has a function under way; every other one has settled. */
  ghost predicate SingleFlight(s: State) {
    && s.fibers.Keys == (if s.inFlight.Some? then {s.inFlight.value} else {})
    && (s.inFlight.Some? ==> s.inFlight.value < s.flights)
    && (forall f: nat :: f in s.settled <==> f < s.flights && s.inFlight != Some(f))
  }

  function Since(phase: Phase): Option<nat> {
    match phase
    case Scheduled => None
    case Building(since) => Some(since)
    case Pushing(since, _) => Some(since)
  }

  /** A caller the build under way started too early for is remembered in `reloadQueued`. */
  ghost predicate NoneForgotten(s: State) {
    forall f, i :: f in s.fibers && 0 <= i < |s.callers| && s.callers[i].flight == f && Since(s.fibers[f]).Some? ==>
      s.callers[i].time < Since(s.fibers[f]).value || s.reloadQueued
  }

  /** Each caller's flight exists, and was joined before now. */
  ghost predicate CallersKnown(s: State) {
    forall i :: 0 <= i < |s.callers| ==> s.callers[i].flight < s.flights && s.callers[i].time < s.time
  }

  ghost predicate AcceptedSince(s: State, since: nat) {
    exists k :: 0 <= k < |s.accepted| && s.accepted[k].since == since
  }

  /** A resolved promise is backed by an accepted push, built after each of its callers called. */
  ghost predicate ResolvedIsBacked(s: State) {
    forall f :: f in s.settled && s.settled[f].Resolved? ==>
      && AcceptedSince(s, s.settled[f].since)
      && forall i :: 0 <= i < |s.callers| && s.callers[i].flight == f ==> s.callers[i].time < s.settled[f].since
  }

  /** Builds start in the past. */
  ghost predicate Past(s: State) {
    && (forall k :: 0 <= k < |s.accepted| ==> s.accepted[k].since < s.time)
    && (forall f :: f in s.fibers && Since(s.fibers[f]).Some? ==> Since(s.fibers[f]).value < s.time)
  }

  /** Configurations are accepted in the order their builds started, and the build under way is newer. */
  ghost predicate NewerLast(s: State) {
    && (forall j, k :: 0 <= j < k < |s.accepted| ==> s.accepted[j].since < s.accepted[k].since)
    && (forall f, k :: f in s.fibers && Since(s.fibers[f]).Some? && 0 <= k < |s.accepted| ==>
          s.accepted[k].since < Since(s.fibers[f]).value)
  }

  /** The file and the origin on record are those of one build, the last accepted. */
  ghost predicate SameBuild(s: State) {
    && (forall f :: f in s.fibers && s.fibers[f].Pushing? ==> s.nextOrigin == s.fibers[f].built.origin)
    && (s.accepted == [] ==> s.lastPushed == None && s.lastOrigin == None)
    && (s.accepted != [] ==>
          var last := s.accepted[|s.accepted| - 1].built;
          s.lastPushed == Some(last.caddyfile) && s.lastOrigin == last.origin)
  }

  /** Builds are recorded in order, the one under way last. */
  ghost predicate RoundsKnown(s: State) {
    && (forall k :: 0 <= k < |s.rounds| ==> s.rounds[k].since < s.time)
    && (forall j, k :: 0 <= j < k < |s.rounds| ==> s.rounds[j].since < s.rounds[k].since)
    && (forall f :: f in s.fibers && Since(s.fibers[f]).Some? ==>
          s.rounds != [] && s.rounds[|s.rounds| - 1] == Round(f, Since(s.fibers[f]).value))
  }

  /** What a settled flight is recorded with is its last build. */
  ghost predicate LastRounds(s: State) {
    forall f :: f in s.settled ==>
      && Round(f, s.settled[f].since) in s.rounds
      && forall k :: 0 <= k < |s.rounds| && s.rounds[k].flight == f ==> s.rounds[k].since <= s.settled[f].since
  }

  /** A round is asked for only by a call that the build under way came too early for. */
  ghost predicate AskedFor(s: State) {
    forall f :: f in s.fibers && Since(s.fibers[f]).Some? && s.reloadQueued ==>
      exists i :: 0 <= i < |s.callers| && s.callers[i].flight == f && s.callers[i].time > Since(s.fibers[f]).value
  }

  ghost predicate Inv(s: State) {
    && SingleFlight(s) && NoneForgotten(s) && CallersKnown(s) && RoundsKnown(s) && LastRounds(s) && AskedFor(s)
    && ResolvedIsBacked(s) && Past(s) && NewerLast(s) && SameBuild(s)
  }

  lemma KeepsSingleFlight(s: State, e: Event)
    requires SingleFlight(s) && Enabled(s, e)
    ensures SingleFlight(Step(s, e))
  {
  }

  lemma KeepsNoneForgotten(s: State, e: Event)
    requires SingleFlight(s) && NoneForgotten(s) && CallersKnown(s) && Enabled(s, e)
    ensures NoneForgotten(Step(s, e))
  {
  }

  lemma KeepsCallersKnown(s: State, e: Event)
    requires SingleFlight(s) && CallersKnown(s)
    ensures CallersKnown(Apply(s, e))
  {
  }

  lemma KeepsBacked(s: State, e: Event)
    requires SingleFlight(s) && NoneForgotten(s) && CallersKnown(s) && ResolvedIsBacked(s) && Enabled(s, e)
    ensures ResolvedIsBacked(Step(s, e))
  {
    hide AcceptedSince;
    var t := Step(s, e);
    assert s.accepted <= t.accepted;
    forall f | f in t.settled && t.settled[f].Resolved? ensures AcceptedSince(t, t.settled[f].since) {
      if f in s.settled {
        StillAccepted(s, t, s.settled[f].since);
      } else {
        JustAccepted(s, t, t.settled[f].since);
      }
    }
  }

  lemma StillAccepted(s: State, t: State, since: nat)
    requires s.accepted <= t.accepted && AcceptedSince(s, since)
    ensures AcceptedSince(t, since)
  {
    var k :| 0 <= k < |s.accepted| && s.accepted[k].since == since;
    assert t.accepted[k] == s.accepted[k];
  }

  lemma JustAccepted(s: State, t: State, since: nat)
    requires |t.accepted| == |s.accepted| + 1 && t.accepted[|s.accepted|].since == since
    ensures AcceptedSince(t, since)
  {
  }

  lemma KeepsPast(s: State, e: Event)
    requires SingleFlight(s) && Past(s)
    ensures Past(Apply(s, e))
  {
  }

  lemma KeepsNewerLast(s: State, e: Event)
    requires SingleFlight(s) && Past(s) && NewerLast(s) && Enabled(s, e)
    ensures NewerLast(Step(s, e))
  {
  }

  lemma KeepsSameBuild(s: State, e: Event)
    requires SingleFlight(s) && SameBuild(s) && Enabled(s, e)
    ensures SameBuild(Step(s, e))
  {
  }

  lemma KeepsRoundsKnown(s: State, e: Event)
    requires SingleFlight(s) && RoundsKnown(s) && Enabled(s, e)
    ensures RoundsKnown(Step(s, e).(time := s.time + 1))
  {
  }

  lemma KeepsLastRounds(s: State, e: Event)
    requires SingleFlight(s) && RoundsKnown(s) && LastRounds(s) && Enabled(s, e)
    ensures LastRounds(Step(s, e))
  {
    var t := Step(s, e);
    assert s.rounds <= t.rounds;
    forall f | f in t.settled
      ensures Round(f, t.settled[f].since) in t.rounds
      ensures forall k :: 0 <= k < |t.rounds| && t.rounds[k].flight == f ==> t.rounds[k].since <= t.settled[f].since
    {
      if f in s.settled {
        assert f !in s.fibers && Round(f, s.settled[f].since) in s.rounds;
      } else {
        assert f in s.fibers && t.rounds == s.rounds;
      }
    }
  }

  lemma KeepsAskedFor(s: State, e: Event)
    requires SingleFlight(s) && Past(s) && AskedFor(s) && Enabled(s, e)
    ensures AskedFor(Step(s, e).(time := s.time + 1))
  {
    var t := Step(s, e);
    assert s.callers <= t.callers;
    forall f | f in t.fibers && Since(t.fibers[f]).Some? && t.reloadQueued
      ensures exists i ::
                0 <= i < |t.callers| && t.callers[i].flight == f && t.callers[i].time > Since(t.fibers[f]).value
    {
      if e.Call? {
        assert t.callers[|s.callers|] == Caller(s.time, f);
      } else {
        var i :| 0 <= i < |s.callers| && s.callers[i].flight == f && s.callers[i].time > Since(s.fibers[f]).value;
        assert t.callers[i] == s.callers[i];
      }
    }
  }

  lemma TimePasses(s: State, time: nat)
    requires SingleFlight(s) && NoneForgotten(s) && LastRounds(s) && ResolvedIsBacked(s) && NewerLast(s) && SameBuild(s)
    ensures var t := s.(time := time);
      SingleFlight(t) && NoneForgotten(t) && LastRounds(t) && ResolvedIsBacked(t) && NewerLast(t) && SameBuild(t)
  {
    forall f | f in s.settled && s.settled[f].Resolved? ensures AcceptedSince(s.(time := time), s.settled[f].since) {
      assert AcceptedSince(s, s.settled[f].since);
    }
  }

  lemma StepKeeps(s: State, e: Event)
    requires Inv(s)
    ensures Inv(Apply(s, e))
  {
    hide SingleFlight, NoneForgotten, CallersKnown, RoundsKnown, LastRounds, AskedFor, ResolvedIsBacked, Past;
    hide NewerLast, SameBuild, Step;
    if Enabled(s, e) {
      KeepsSingleFlight(s, e);
      KeepsNoneForgotten(s, e);
      KeepsBacked(s, e);
      KeepsNewerLast(s, e);
      KeepsSameBuild(s, e);
      KeepsRoundsKnown(s, e);
      KeepsLastRounds(s, e);
      KeepsAskedFor(s, e);
      TimePasses(Step(s, e), s.time + 1);
    }
    KeepsCallersKnown(s, e);
    KeepsPast(s, e);
  }

  lemma {:induction false} RunKeeps(events: seq<Event>)
    ensures Inv(Run(events))
    decreases |events|
  {
    hide Inv, Apply;
    if events == [] {
      StartKept();
    } else {
      RunKeeps(events[..|events| - 1]);
      StepKeeps(Run(events[..|events| - 1]), events[|events| - 1]);
    }
  }

  lemma StartKept()
    ensures Inv(NEW)
  {
    assert NEW.fibers.Keys == {};
  }

  // ---- Main results ----------------------------------------------------------------

  /** Builds and pushes never overlap: at most one function is under way, and it holds the lock. */
  lemma NeverOverlap(events: seq<Event>, f: nat, g: nat)
    requires f in Run(events).fibers && g in Run(events).fibers
    ensures f == g && Run(events).inFlight == Some(f)
  {
    RunKeeps(events);
  }

  /** A promise resolves only if a build that started after the call was pushed and accepted. */
  lemma ResolvedMeansFresh(events: seq<Event>, i: nat)
    requires i < |Run(events).callers|
    requires var s := Run(events); var f := s.callers[i].flight; f in s.settled && s.settled[f].Resolved?
    ensures var s := Run(events);
      exists k :: 0 <= k < |s.accepted| && s.callers[i].time < s.accepted[k].since
  {
    RunKeeps(events);
    var s := Run(events);
    var since := s.settled[s.callers[i].flight].since;
    assert AcceptedSince(s, since);
  }

  /** A build of the caller's own flight started after its call. */
  ghost predicate BuiltAfter(s: State, i: nat)
    requires i < |s.callers|
  {
    exists k :: 0 <= k < |s.rounds| && s.rounds[k].flight == s.callers[i].flight
      && s.callers[i].time < s.rounds[k].since
  }

  /**
   No call is lost: its promise has settled, or its flight is under way and the build
   that will settle it starts after the call. A settled call saw no build of its flight
   start after it exactly if the flight was rejected with a last build older than the call.
   */
  lemma NoCallLost(events: seq<Event>, i: nat)
    requires i < |Run(events).callers|
    ensures var s := Run(events); var f := s.callers[i].flight;
      || f in s.settled
      || (s.inFlight == Some(f) && f in s.fibers
          && (Since(s.fibers[f]).None? || s.callers[i].time < Since(s.fibers[f]).value || s.reloadQueued))
    ensures var s := Run(events); var f := s.callers[i].flight;
      f in s.settled ==>
        && (BuiltAfter(s, i) <==> s.callers[i].time < s.settled[f].since)
        && (!BuiltAfter(s, i) ==> s.settled[f].Rejected?)
  {
    hide Run;
    assert Inv(Run(events)) by { RunKeeps(events); }
    var s := Run(events);
    var f := s.callers[i].flight;
    if f in s.settled {
      var k :| 0 <= k < |s.rounds| && s.rounds[k] == Round(f, s.settled[f].since);
    }
  }

  /**
   A failing flight rejects a caller that saw no build start after its call exactly if
   another round had been asked for: the request goes with the flight.
   */
  lemma FailureDropsRequest(events: seq<Event>, e: Event)
    requires (e.BuildFail? || e.PushFail?) && Enabled(Run(events), e)
    ensures var s, t := Run(events), Run(events + [e]);
      s.reloadQueued <==> exists i: nat :: i < |t.callers| && t.callers[i].flight == e.f && !BuiltAfter(t, i)
  {
    hide Run, Apply, SingleFlight, NoneForgotten, RoundsKnown, AskedFor;
    RunKeeps(events);
    RunThen(events, e);
    FailureDrops(Run(events), e);
  }

  lemma RunThen(events: seq<Event>, e: Event)
    ensures Run(events + [e]) == Apply(Run(events), e)
  {
    assert (events + [e])[..|events|] == events;
  }

  lemma FailureDrops(s: State, e: Event)
    requires SingleFlight(s) && NoneForgotten(s) && RoundsKnown(s) && AskedFor(s)
    requires (e.BuildFail? || e.PushFail?) && Enabled(s, e)
    ensures var t := Apply(s, e);
      s.reloadQueued <==> exists i: nat :: i < |t.callers| && t.callers[i].flight == e.f && !BuiltAfter(t, i)
  {
    var t, since := Apply(s, e), s.fibers[e.f].since;
    forall i: nat | i < |t.callers| && t.callers[i].flight == e.f
      ensures BuiltAfter(t, i) <==> t.callers[i].time < since
    {
      assert s.rounds[|s.rounds| - 1] == Round(e.f, since);
    }
  }

  /** How many events a flight still needs if nobody calls any more. */
  function Left(s: State): nat {
    match s.inFlight
    case None => 0
    case Some(f) =>
      if f !in s.fibers then 0
      else
        match s.fibers[f]
        case Scheduled => 3
        case Building(_) => if s.reloadQueued then 4 else 2
        case Pushing(_, _) => if s.reloadQueued then 3 else 1
  }

  /** Unless somebody calls, every event brings the flight nearer its end, and one is always possible. */
  lemma FlightsLand(events: seq<Event>)
    ensures var s := Run(events);
      && (s.inFlight.Some? <==> Left(s) > 0)
      && (s.inFlight.Some? ==> exists e: Event :: !e.Call? && Enabled(s, e))
      && (forall e: Event :: !e.Call? && Enabled(s, e) ==> Left(Apply(s, e)) < Left(s))
  {
    RunKeeps(events);
    var s := Run(events);
    if s.inFlight.Some? {
      var f := s.inFlight.value;
      assert f in s.fibers;
      var e := match s.fibers[f]
        case Scheduled => Start(f)
        case Building(_) => BuildFail(f)
        case Pushing(_, _) => PushFail(f);
      assert !e.Call? && Enabled(s, e);
    }
    hide Run, Inv;
    assert SingleFlight(s);
    forall e: Event | !e.Call? && Enabled(s, e) ensures Left(Apply(s, e)) < Left(s) { OneNearer(s, e); }
  }

  lemma OneNearer(s: State, e: Event)
    requires SingleFlight(s) && !e.Call? && Enabled(s, e)
    ensures Left(Apply(s, e)) < Left(s)
  {
  }

  /** A failure rejects the flight, leaves the lock free and leaves the record of the last push alone. */
  lemma FailureFreesLock(events: seq<Event>, e: Event)
    requires (e.BuildFail? || e.PushFail?) && Enabled(Run(events), e)
    ensures var s, t := Run(events), Run(events + [e]);
      && t.inFlight == None && t.fibers == map[]
      && s.inFlight == Some(e.f) && t.settled == s.settled[e.f := Rejected(s.fibers[e.f].since)]
      && t.lastPushed == s.lastPushed && t.lastOrigin == s.lastOrigin && t.accepted == s.accepted
  {
    RunKeeps(events);
    assert (events + [e])[..|events + [e]| - 1] == events;
  }

  lemma LastIsNewest(s: State)
    requires NewerLast(s) && s.accepted != []
    ensures forall j :: 0 <= j < |s.accepted| ==> s.accepted[j].since <= s.accepted[|s.accepted| - 1].since
  {
  }

  /** The file and the management origin on record come from one build, the newest accepted. */
  lemma RecordIsNewest(events: seq<Event>)
    ensures var s := Run(events);
      && (s.lastPushed.Some? <==> s.accepted != [])
      && (s.lastPushed.None? ==> s.lastOrigin.None?)
      && (s.accepted != [] ==>
            exists k :: 0 <= k < |s.accepted|
              && s.lastPushed == Some(s.accepted[k].built.caddyfile) && s.lastOrigin == s.accepted[k].built.origin
              && forall j :: 0 <= j < |s.accepted| ==> s.accepted[j].since <= s.accepted[k].since)
  {
    hide Run, SingleFlight, NoneForgotten, CallersKnown, RoundsKnown, LastRounds, AskedFor, ResolvedIsBacked, Past;
    RunKeeps(events);
    var s := Run(events);
    if s.accepted != [] {
      LastIsNewest(s);
    }
  }
}
