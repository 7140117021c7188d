/**
 The deployment queue (queue.ts): jobs run one at a time per service.

 `DeploymentQueue` is the source's class; its ghost field is the history of the queue, and
 each method is proved to do what `Apply` says of one event. `Run` takes a whole sequence
 of events. A job that throws ends like any other, so `Finish` stands for both.
 */
module Queue {
  import opened Wrappers

  datatype Job = Job(id: string, service: int, deployment: string)

  /** The queue's fields, and which jobs were ever enqueued, started and finished. */
  datatype State = State(queue: seq<Job>, running: set<int>,
                         enqueued: seq<Job>, started: seq<Job>, active: seq<Job>, finished: seq<Job>)

  const IDLE := State([], {}, [], [], [], [])

  datatype Event = Enqueue(job: Job) | Finish(job: Job)

  // ---- One event -------------------------------------------------------------------

  /** `queue.find(j => !running.has(j.serviceId))` */
  function Pending(queue: seq<Job>, running: set<int>): (r: Option<Job>)
    ensures r.Some? ==> r.value in queue && r.value.service !in running
    ensures r.None? ==> forall j <- queue :: j.service in running
  {
    if queue == [] then None
    else if queue[0].service !in running then Some(queue[0])
    else Pending(queue[1..], running)
  }

  /** `queue.filter(j => j.id !== id)` */
  function WithoutId(queue: seq<Job>, id: string): seq<Job> {
    if queue == [] then [] else (if queue[0].id != id then [queue[0]] else []) + WithoutId(queue[1..], id)
  }

  lemma {:induction false} WithoutIdKeeps(queue: seq<Job>, id: string)
    ensures forall j :: j in WithoutId(queue, id) <==> j in queue && j.id != id
  {
    if queue != [] { WithoutIdKeeps(queue[1..], id); }
  }

  /** The synchronous part of `processNext`: at most one job starts. */
  function StartNext(s: State): State {
    match Pending(s.queue, s.running)
    case None => s
    case Some(job) =>
      s.(queue := WithoutId(s.queue, job.id),
         running := s.running + {job.service},
         started := s.started + [job],
         active := s.active + [job])
  }

  function Drop(jobs: seq<Job>, job: Job): (r: seq<Job>)
    requires job in jobs
    ensures multiset(r) + multiset{job} == multiset(jobs)
  {
    if jobs[0] == job then
      assert jobs == [jobs[0]] + jobs[1..];
      jobs[1..]
    else
      assert jobs == [jobs[0]] + jobs[1..];
      [jobs[0]] + Drop(jobs[1..], job)
  }

  /** One event. Only a job that is being run can finish; any other `Finish` is no event. */
  function Apply(s: State, e: Event): State {
    match e
    case Enqueue(job) => StartNext(s.(queue := s.queue + [job], enqueued := s.enqueued + [job]))
    case Finish(job) =>
      if job !in s.active then s
      else StartNext(s.(running := s.running - {job.service},
                        active := Drop(s.active, job),
                        finished := s.finished + [job]))
  }

  class DeploymentQueue {
    var queue: seq<Job>
    var running: set<int>
    ghost var history: State

    ghost predicate Tracked()
      reads this
    {
      history.queue == queue && history.running == running
    }

    constructor ()
      ensures Tracked() && history == IDLE
    {
      queue, running := [], {};
      history := IDLE;
    }

    method ProcessNext()
      requires Tracked()
      modifies this
      ensures Tracked() && history == StartNext(old(history))
    {
      var pending := Pending(queue, running);
      if pending.None? { return; }
      queue := WithoutId(queue, pending.value.id);
      running := running + {pending.value.service};
      history := StartNext(history);
    }

    method Enqueue(job: Job)
      requires Tracked()
      modifies this
      ensures Tracked() && history == Apply(old(history), Event.Enqueue(job))
    {
      queue := queue + [job];
      history := history.(queue := queue, enqueued := history.enqueued + [job]);
      ProcessNext();
    }

    /** The `finally` block of `processNext`, when a job's promise settles either way. */
    method Finish(job: Job)
      requires Tracked() && job in history.active
      modifies this
      ensures Tracked() && history == Apply(old(history), Event.Finish(job))
    {
      running := running - {job.service};
      history := history.(running := running,
                          active := Drop(history.active, job),
                          finished := history.finished + [job]);
      ProcessNext();
    }
  }

  // ---- Runs ------------------------------------------------------------------------

  function Run(events: seq<Event>): State {
    if events == [] then IDLE else Apply(Run(events[..|events| - 1]), events[|events| - 1])
  }

  function OfService(jobs: seq<Job>, service: int): seq<Job> {
    if jobs == [] then []
    else OfService(jobs[..|jobs| - 1], service) + if jobs[|jobs| - 1].service == service then [jobs[|jobs| - 1]] else []
  }

  ghost predicate DistinctIds(jobs: seq<Job>) {
    forall i, j :: 0 <= i < j < |jobs| ==> jobs[i].id != jobs[j].id
  }

  ghost predicate DistinctServices(jobs: seq<Job>) {
    forall i, j :: 0 <= i < j < |jobs| ==> jobs[i].service != jobs[j].service
  }

  // ---- Nothing eligible waits, and one job per service -----------------------------

  /** Every waiting job waits for a job of its own service. */
  ghost predicate WorkConserving(s: State) {
    forall j <- s.queue :: j.service in s.running
  }

  /** The running set is the services of the active jobs, no two of them alike. */
  ghost predicate OnePerService(s: State) {
    && DistinctServices(s.active)
    && (forall j <- s.active :: j.service in s.running)
    && (forall service <- s.running :: exists j :: j in s.active && j.service == service)
  }

  /** Starting one job is enough if all the jobs that could start are of one service. */
  lemma StartNextConserves(s: State, service: int)
    requires forall j <- s.queue :: j.service in s.running || j.service == service
    ensures WorkConserving(StartNext(s))
  {
    var pending := Pending(s.queue, s.running);
    if pending.Some? { WithoutIdKeeps(s.queue, pending.value.id); }
  }

  lemma StartNextOnePerService(s: State)
    requires OnePerService(s)
    ensures OnePerService(StartNext(s))
  {
    var pending := Pending(s.queue, s.running);
    if pending.Some? {
      var job, t := pending.value, StartNext(s);
      assert t.active[|s.active|] == job;
      forall x | x in t.running ensures exists j :: j in t.active && j.service == x {
        if x in s.running {
          var j :| j in s.active && j.service == x;
          assert j in t.active;
        } else {
          assert job in t.active;
        }
      }
    }
  }

  /** Dropping a job drops no other, if no two are of one service. */
  lemma {:induction false} DropMembers(jobs: seq<Job>, job: Job)
    requires job in jobs && DistinctServices(jobs)
    ensures forall j :: j in Drop(jobs, job) <==> j in jobs && j != job
    decreases |jobs|
  {
    var rest := jobs[1..];
    assert jobs == [jobs[0]] + rest;
    RestDistinct(jobs);
    if jobs[0] != job {
      DropMembers(rest, job);
    }
  }

  lemma RestDistinct(jobs: seq<Job>)
    requires jobs != [] && DistinctServices(jobs)
    ensures DistinctServices(jobs[1..]) && forall j <- jobs[1..] :: j.service != jobs[0].service
  {
  }

  lemma {:induction false} DropKeepsOrder(jobs: seq<Job>, job: Job)
    requires job in jobs && DistinctServices(jobs)
    ensures DistinctServices(Drop(jobs, job))
    ensures forall j <- Drop(jobs, job) :: j in jobs && j.service != job.service
    ensures forall j <- jobs :: j == job || j in Drop(jobs, job)
    decreases |jobs|
  {
    DropMembers(jobs, job);
    RestDistinct(jobs);
    OtherService(jobs, job);
    if jobs[0] != job {
      DropMembers(jobs[1..], job);
      DropKeepsOrder(jobs[1..], job);
      DropCons(jobs, job);
      hide Drop;
      ConsDistinct(jobs[0], Drop(jobs[1..], job));
    }
  }

  lemma DropCons(jobs: seq<Job>, job: Job)
    requires job in jobs
    ensures jobs[0] != job ==> job in jobs[1..] && Drop(jobs, job) == [jobs[0]] + Drop(jobs[1..], job)
  {
  }

  lemma OtherService(jobs: seq<Job>, job: Job)
    requires job in jobs && DistinctServices(jobs)
    ensures forall j <- jobs :: j != job ==> j.service != job.service
  {
  }

  lemma ConsDistinct(first: Job, rest: seq<Job>)
    requires DistinctServices(rest) && forall j <- rest :: j.service != first.service
    ensures DistinctServices([first] + rest)
  {
  }

  lemma FinishOnePerService(s: State, job: Job)
    requires OnePerService(s) && job in s.active
    ensures OnePerService(s.(running := s.running - {job.service}, active := Drop(s.active, job)))
  {
    DropKeepsOrder(s.active, job);
    var rest := Drop(s.active, job);
    forall x | x in s.running - {job.service} ensures exists j :: j in rest && j.service == x {
      var j :| j in s.active && j.service == x;
      assert j in rest;
    }
  }

  /**
   After every event no job waits that could run, although each event starts at most one
   job, and no service has two jobs running. Ids play no part in this.
   */
  lemma {:induction false} AlwaysBusy(events: seq<Event>)
    ensures WorkConserving(Run(events)) && OnePerService(Run(events))
    decreases |events|
  {
    hide StartNext, WorkConserving;
    if events == [] {
      IdleBusy();
    } else {
      var s := Run(events[..|events| - 1]);
      AlwaysBusy(events[..|events| - 1]);
      ApplyBusy(s, events[|events| - 1]);
    }
  }

  lemma IdleBusy()
    ensures WorkConserving(IDLE) && OnePerService(IDLE)
  {
  }

  lemma ApplyBusy(s: State, e: Event)
    requires WorkConserving(s) && OnePerService(s)
    ensures WorkConserving(Apply(s, e)) && OnePerService(Apply(s, e))
  {
    hide StartNext;
    match e
    case Enqueue(job) =>
      var t := s.(queue := s.queue + [job], enqueued := s.enqueued + [job]);
      StartNextConserves(t, job.service);
      StartNextOnePerService(t);
    case Finish(job) =>
      if job in s.active {
        var t := s.(running := s.running - {job.service}, active := Drop(s.active, job),
                    finished := s.finished + [job]);
        FinishOnePerService(s, job);
        assert OnePerService(t);
        StartNextConserves(t, job.service);
        StartNextOnePerService(t);
      }
  }

  // ---- When no job is lost, and a service's jobs start in order --------------------

  function Named(jobs: seq<Job>, id: string): nat {
    if jobs == [] then 0 else (if jobs[0].id == id then 1 else 0) + Named(jobs[1..], id)
  }

  /** The job that would start now, if any, is the only one waiting under its id. */
  predicate StartsAlone(queue: seq<Job>, running: set<int>) {
    var pending := Pending(queue, running);
    pending.Some? ==> Named(queue, pending.value.id) == 1
  }

  /** The event starts no job that waits under an id twice. */
  predicate Alone(s: State, e: Event) {
    match e
    case Enqueue(job) => StartsAlone(s.queue + [job], s.running)
    case Finish(job) => job in s.active ==> StartsAlone(s.queue, s.running - {job.service})
  }

  predicate AllAlone(events: seq<Event>) {
    events == [] || (AllAlone(events[..|events| - 1]) && Alone(Run(events[..|events| - 1]), events[|events| - 1]))
  }

  /** Each job that was enqueued is waiting or has started, once. */
  ghost predicate Conserved(s: State) {
    multiset(s.enqueued) == multiset(s.queue) + multiset(s.started)
  }

  /** Each job that has started is being run or finished, once. */
  ghost predicate Accounted(s: State) {
    multiset(s.started) == multiset(s.active) + multiset(s.finished)
  }

  /** A service's jobs have started in the order they were enqueued, and the rest wait in that order. */
  ghost predicate InOrder(s: State, service: int) {
    OfService(s.enqueued, service) == OfService(s.started, service) + OfService(s.queue, service)
  }

  /** The job that starts is the first of its service in the queue. */
  lemma {:induction false} PendingAt(queue: seq<Job>, running: set<int>) returns (i: nat)
    requires Pending(queue, running).Some?
    ensures i < |queue| && queue[i] == Pending(queue, running).value
    ensures forall k :: 0 <= k < i ==> queue[k].service != queue[i].service
  {
    if queue[0].service !in running {
      i := 0;
    } else {
      i := PendingAt(queue[1..], running);
      i := i + 1;
      assert forall k :: 0 < k < i ==> queue[k] == queue[1..][k - 1];
    }
  }

  lemma {:induction false} NamedNone(jobs: seq<Job>, id: string)
    ensures Named(jobs, id) == 0 <==> forall j <- jobs :: j.id != id
  {
    if jobs != [] { NamedNone(jobs[1..], id); }
  }

  lemma {:induction false} FilterSize(jobs: seq<Job>, id: string)
    ensures |WithoutId(jobs, id)| + Named(jobs, id) == |jobs|
  {
    if jobs != [] { FilterSize(jobs[1..], id); }
  }

  /** With one job waiting under its id, the filter removes exactly the job that starts. */
  lemma {:induction false} RemoveAt(queue: seq<Job>, i: nat)
    requires i < |queue| && Named(queue, queue[i].id) == 1
    ensures WithoutId(queue, queue[i].id) == queue[..i] + queue[i + 1..]
  {
    var job, rest := queue[i], queue[1..];
    NamedNone(rest, job.id);
    if i == 0 {
      NoneToRemove(rest, job.id);
    } else {
      assert rest[i - 1] == job;
      RemoveAt(rest, i - 1);
      assert queue[..i] == [queue[0]] + rest[..i - 1];
      assert queue[i + 1..] == rest[i..];
    }
  }

  lemma {:induction false} NoneToRemove(queue: seq<Job>, id: string)
    requires forall j <- queue :: j.id != id
    ensures WithoutId(queue, id) == queue
  {
    if queue != [] { NoneToRemove(queue[1..], id); }
  }

  lemma {:induction false} OfServiceAppend(a: seq<Job>, b: seq<Job>, service: int)
    ensures OfService(a + b, service) == OfService(a, service) + OfService(b, service)
    decreases |b|
  {
    if b == [] {
      assert a + b == a;
    } else {
      OfServiceAppend(a, b[..|b| - 1], service);
      assert (a + b)[..|a + b| - 1] == a + b[..|b| - 1];
    }
  }

  lemma OfServiceOne(job: Job, service: int)
    ensures OfService([job], service) == if job.service == service then [job] else []
  {
    assert [job][..0] == [];
  }

  lemma {:induction false} NoneOfService(jobs: seq<Job>, service: int)
    requires forall j <- jobs :: j.service != service
    ensures OfService(jobs, service) == []
  {
    if jobs != [] { NoneOfService(jobs[..|jobs| - 1], service); }
  }

  /** Starting the first job of a service moves it from the head of the service's queue to the end of its starts. */
  lemma OrderAt(queue: seq<Job>, i: nat, service: int)
    requires i < |queue| && forall k :: 0 <= k < i ==> queue[k].service != queue[i].service
    ensures OfService(queue, service) ==
            OfService([queue[i]], service) + OfService(queue[..i] + queue[i + 1..], service)
  {
    var job, before, after := queue[i], queue[..i], queue[i + 1..];
    assert queue == before + [job] + after;
    var own := OfService([job], service);
    assert own == [] || OfService(before, service) == [] by {
      OfServiceOne(job, service);
      if job.service == service { NoneOfService(before, service); }
    }
    hide OfService;
    OfServiceAppend(before + [job], after, service);
    OfServiceAppend(before, [job], service);
    OfServiceAppend(before, after, service);
    HeadFirst(OfService(before, service), own, OfService(after, service));
  }

  lemma HeadFirst(a: seq<Job>, b: seq<Job>, c: seq<Job>)
    requires a == [] || b == []
    ensures a + b + c == b + (a + c)
  {
  }

  lemma StartNextInOrder(s: State, service: int)
    requires StartsAlone(s.queue, s.running) && InOrder(s, service)
    ensures InOrder(StartNext(s), service)
  {
    hide OfService, WithoutId, Pending, Named;
    if Pending(s.queue, s.running).Some? {
      var i := PendingAt(s.queue, s.running);
      RemoveAt(s.queue, i);
      OrderAt(s.queue, i, service);
      OfServiceAppend(s.started, [s.queue[i]], service);
    }
  }

  lemma StartNextConserved(s: State)
    requires StartsAlone(s.queue, s.running) && Conserved(s)
    ensures Conserved(StartNext(s))
  {
    hide WithoutId, Pending, Named;
    if Pending(s.queue, s.running).Some? {
      var i := PendingAt(s.queue, s.running);
      RemoveAt(s.queue, i);
      assert s.queue == s.queue[..i] + [s.queue[i]] + s.queue[i + 1..];
    }
  }

  /** The jobs the events enqueue. */
  function Jobs(events: seq<Event>): seq<Job> {
    if events == [] then []
    else Jobs(events[..|events| - 1]) + if events[|events| - 1].Enqueue? then [events[|events| - 1].job] else []
  }

  lemma {:induction false} EnqueuedGrows(events: seq<Event>)
    ensures Run(events).enqueued == Jobs(events)
  {
    if events != [] { EnqueuedGrows(events[..|events| - 1]); }
  }

  lemma EnqueueInOrder(s: State, job: Job, service: int)
    requires Conserved(s) && InOrder(s, service)
    ensures var t := s.(queue := s.queue + [job], enqueued := s.enqueued + [job]);
      Conserved(t) && InOrder(t, service)
  {
    hide OfService;
    OfServiceAppend(s.queue, [job], service);
    OfServiceAppend(s.enqueued, [job], service);
  }

  lemma ApplyAlone(s: State, e: Event, service: int)
    requires Conserved(s) && InOrder(s, service) && Alone(s, e)
    ensures Conserved(Apply(s, e)) && InOrder(Apply(s, e), service)
  {
    hide StartNext, OfService, StartsAlone;
    match e
    case Enqueue(job) =>
      var t := s.(queue := s.queue + [job], enqueued := s.enqueued + [job]);
      EnqueueInOrder(s, job, service);
      StartNextConserved(t);
      StartNextInOrder(t, service);
    case Finish(job) =>
      if job in s.active {
        var t := s.(running := s.running - {job.service}, active := Drop(s.active, job),
                    finished := s.finished + [job]);
        StartNextConserved(t);
        StartNextInOrder(t, service);
      }
  }

  lemma {:induction false} AloneConserves(events: seq<Event>, service: int)
    requires AllAlone(events)
    ensures Conserved(Run(events)) && InOrder(Run(events), service)
    decreases |events|
  {
    hide Alone, Apply, InOrder;
    if events == [] {
      IdleInOrder(service);
    } else {
      AloneConserves(events[..|events| - 1], service);
      ApplyAlone(Run(events[..|events| - 1]), events[|events| - 1], service);
    }
  }

  lemma IdleInOrder(service: int)
    ensures Conserved(IDLE) && InOrder(IDLE, service)
  {
  }

  // ---- Otherwise a job is gone for good --------------------------------------------

  /** How many more jobs were enqueued than are waiting or have started. */
  function Missing(s: State): int {
    |s.enqueued| - |s.queue| - |s.started|
  }

  /** A start loses no job exactly when the started job is the only one waiting under its id. */
  lemma StartLosesNothing(s: State)
    ensures Missing(StartNext(s)) >= Missing(s)
    ensures Missing(StartNext(s)) == Missing(s) <==> StartsAlone(s.queue, s.running)
  {
    var pending := Pending(s.queue, s.running);
    if pending.Some? {
      FilterSize(s.queue, pending.value.id);
      NamedNone(s.queue, pending.value.id);
    }
  }

  lemma StartNextAccounted(s: State)
    requires Accounted(s)
    ensures Accounted(StartNext(s))
  {
  }

  lemma ApplyLoses(s: State, e: Event)
    requires Accounted(s)
    ensures Accounted(Apply(s, e)) && Missing(Apply(s, e)) >= Missing(s)
    ensures Missing(Apply(s, e)) == Missing(s) <==> Alone(s, e)
  {
    hide StartNext, StartsAlone;
    match e
    case Enqueue(job) =>
      var t := s.(queue := s.queue + [job], enqueued := s.enqueued + [job]);
      StartLosesNothing(t);
      StartNextAccounted(t);
    case Finish(job) =>
      if job in s.active {
        var t := s.(running := s.running - {job.service}, active := Drop(s.active, job),
                    finished := s.finished + [job]);
        StartLosesNothing(t);
        StartNextAccounted(t);
      }
  }

  lemma {:induction false} RunLoses(events: seq<Event>)
    ensures Accounted(Run(events)) && Missing(Run(events)) >= 0
    ensures Missing(Run(events)) == 0 <==> AllAlone(events)
    decreases |events|
  {
    hide Alone, Apply, Missing;
    if events == [] {
      IdleAccounted();
    } else {
      RunLoses(events[..|events| - 1]);
      ApplyLoses(Run(events[..|events| - 1]), events[|events| - 1]);
    }
  }

  lemma IdleAccounted()
    ensures Accounted(IDLE) && Missing(IDLE) == 0
  {
  }

  /**
   After any events each started job is running or finished. The enqueued jobs are exactly
   those waiting, running and finished if and only if no event started a job whose id was
   waiting twice; then every service's jobs start in enqueue order.
   */
  lemma NoJobLost(events: seq<Event>, service: int)
    ensures Accounted(Run(events))
    ensures Conserved(Run(events)) <==> AllAlone(events)
    ensures AllAlone(events) ==> InOrder(Run(events), service)
  {
    hide AllAlone, InOrder, Run;
    RunLoses(events);
    if AllAlone(events) { AloneConserves(events, service); }
    if Conserved(Run(events)) {
      var s := Run(events);
      assert |multiset(s.enqueued)| == |multiset(s.queue)| + |multiset(s.started)|;
    }
  }

  /** When nothing runs, nothing waits, and unless an id was shared everything ever enqueued has finished. */
  lemma QuietMeansDone(events: seq<Event>)
    requires Run(events).active == []
    ensures Run(events).queue == []
    ensures multiset(Run(events).finished) == multiset(Jobs(events)) <==> AllAlone(events)
  {
    hide Run, AllAlone, InOrder;
    var s := Run(events);
    AlwaysBusy(events);
    NoJobLost(events, 0);
    EnqueuedGrows(events);
    assert |s.queue| > 0 ==> s.queue[0].service in s.running;
  }

  // ---- Jobs with distinct ids ------------------------------------------------------

  /** The waiting jobs are enqueued ones, with an id each. */
  ghost predicate Apart(s: State) {
    DistinctIds(s.queue) && forall j <- s.queue :: j in s.enqueued
  }

  lemma {:induction false} DistinctNamed(queue: seq<Job>, job: Job)
    requires DistinctIds(queue) && job in queue
    ensures Named(queue, job.id) == 1
  {
    var rest := queue[1..];
    assert queue == [queue[0]] + rest;
    assert forall k :: 0 <= k < |rest| ==> rest[k] == queue[k + 1];
    NamedNone(rest, job.id);
    if queue[0] != job { DistinctNamed(rest, job); }
  }

  lemma StartApart(s: State)
    requires Apart(s)
    ensures StartsAlone(s.queue, s.running) && Apart(StartNext(s))
  {
    hide WithoutId, Pending, Named, DistinctIds;
    if Pending(s.queue, s.running).Some? {
      var i := PendingAt(s.queue, s.running);
      DistinctNamed(s.queue, s.queue[i]);
      RemoveAt(s.queue, i);
      FewerJobs(s.queue, i);
    }
  }

  lemma FewerJobs(queue: seq<Job>, i: nat)
    requires DistinctIds(queue) && i < |queue|
    ensures DistinctIds(queue[..i] + queue[i + 1..])
  {
  }

  lemma ApplyApart(s: State, e: Event)
    requires Apart(s)
    requires e.Enqueue? ==> forall j <- s.enqueued :: j.id != e.job.id
    ensures Alone(s, e) && Apart(Apply(s, e))
  {
    hide StartNext, StartsAlone;
    match e
    case Enqueue(job) =>
      StartApart(s.(queue := s.queue + [job], enqueued := s.enqueued + [job]));
    case Finish(job) =>
      if job in s.active {
        StartApart(s.(running := s.running - {job.service}, active := Drop(s.active, job),
                      finished := s.finished + [job]));
      }
  }

  lemma FewerIds(events: seq<Event>)
    requires events != [] && DistinctIds(Jobs(events))
    ensures DistinctIds(Jobs(events[..|events| - 1]))
    ensures events[|events| - 1].Enqueue? ==>
              forall j <- Jobs(events[..|events| - 1]) :: j.id != events[|events| - 1].job.id
  {
    var init := Jobs(events[..|events| - 1]);
    hide DistinctIds;
    if events[|events| - 1].Enqueue? {
      LastId(init, events[|events| - 1].job);
    } else {
      assert Jobs(events) == init;
    }
  }

  lemma LastId(jobs: seq<Job>, job: Job)
    requires DistinctIds(jobs + [job])
    ensures DistinctIds(jobs) && forall j <- jobs :: j.id != job.id
  {
    assert forall k :: 0 <= k < |jobs| ==> (jobs + [job])[k] == jobs[k];
    assert (jobs + [job])[|jobs|] == job;
  }

  /** If no two enqueued jobs share an id, as with the server's random ids, no start loses any. */
  lemma {:induction false} DistinctIdsSuffice(events: seq<Event>)
    requires DistinctIds(Jobs(events))
    ensures AllAlone(events) && Apart(Run(events))
    decreases |events|
  {
    hide Alone, Apply, DistinctIds;
    if events == [] {
      IdleApart();
    } else {
      var init := events[..|events| - 1];
      FewerIds(events);
      DistinctIdsSuffice(init);
      EnqueuedGrows(init);
      ApplyApart(Run(init), events[|events| - 1]);
    }
  }

  lemma IdleApart()
    ensures Apart(IDLE)
  {
  }

  // ---- Why the ids have to differ --------------------------------------------------

  /** Two jobs under one id: the second is dropped when the first starts. */
  lemma SameIdLosesAJob(a: Job, b: Job, c: Job)
    requires a.service == b.service == c.service
    requires b.id == c.id && a.id != b.id
    ensures var waiting := Apply(Apply(Apply(IDLE, Enqueue(a)), Enqueue(b)), Enqueue(c));
      waiting.queue == [b, c] && Apply(waiting, Finish(a)).started == [a, b] && Apply(waiting, Finish(a)).queue == []
  {
    var one := Apply(IDLE, Enqueue(a));
    OneStarts(a);
    var two := Apply(one, Enqueue(b));
    OneWaits(one, b);
    var three := Apply(two, Enqueue(c));
    OneWaits(two, c);
    assert three == State([b, c], {a.service}, [a, b, c], [a], [a], []);
    hide Apply, StartNext;
    SecondDropped(three, a, b, c);
  }

  lemma OneStarts(a: Job)
    ensures Apply(IDLE, Enqueue(a)) == State([], {a.service}, [a], [a], [a], [])
  {
    var t := State([a], {}, [a], [], [], []);
    assert IDLE.(queue := [] + [a], enqueued := [] + [a]) == t;
    assert Pending(t.queue, t.running) == Some(a) && [] + [a] == [a] && {} + {a.service} == {a.service};
    assert WithoutId([a], a.id) == [];
  }

  lemma OneWaits(s: State, b: Job)
    requires b.service in s.running && WorkConserving(s)
    ensures Apply(s, Enqueue(b)) == s.(queue := s.queue + [b], enqueued := s.enqueued + [b])
  {
  }

  lemma SecondDropped(s: State, a: Job, b: Job, c: Job)
    requires s == State([b, c], {a.service}, [a, b, c], [a], [a], [])
    requires a.service == b.service == c.service && b.id == c.id
    ensures Apply(s, Finish(a)).started == [a, b] && Apply(s, Finish(a)).queue == []
  {
    var t := State([b, c], {}, [a, b, c], [a], [], [a]);
    assert Drop([a], a) == [];
    assert {a.service} - {a.service} == {};
    assert s.(running := {a.service} - {a.service}, active := [], finished := [] + [a]) == t;
    assert Apply(s, Finish(a)) == StartNext(t);
    assert Pending(t.queue, t.running) == Some(b) && [a] + [b] == [a, b];
    assert [b, c][1..] == [c] && [c][1..] == [];
    assert WithoutId([b, c], b.id) == WithoutId([c], b.id) == [];
  }
}
