/**
 The analytics counters: the flush transaction of ingest.ts, and prune.ts.

 One request row is stored in detail and counted in three tiers: by day, by week and for
 the service's lifetime. Pruning deletes old request rows and old daily rows. Tables are
 sequences of rows; `AnalyticsDb` updates them as the statements do, and `Run` is the
 same as a function of the whole sequence of operations, about which the main results
 are stated.
 */
module Rollups {
  import opened Wrappers
  import opened Calendar

  datatype Request = Request(ts: int, service: int, host: string, path: string, status: int, bytes: int)

  /** The three things every tier counts. */
  datatype Measure = Requests | Errors | Bytes

  datatype Count = Count(requests: int, errors: int, bytes: int) {
    function Plus(other: Count): Count {
      Count(requests + other.requests, errors + other.errors, bytes + other.bytes)
    }

    function Of(m: Measure): int {
      match m
      case Requests => requests
      case Errors => errors
      case Bytes => bytes
    }
  }

  /** A row of `daily` or `weekly`, whose primary key is (service, period). */
  datatype Bucket = Bucket(service: int, period: int, count: Count)

  /** A row of `total`, whose primary key is the service. */
  datatype Lifetime = Lifetime(service: int, count: Count, firstSeen: int, lastSeen: int)

  datatype Tables = Tables(request: seq<Request>, daily: seq<Bucket>, weekly: seq<Bucket>, total: seq<Lifetime>)

  const EMPTY := Tables([], [], [], [])

  function One(r: Request): Count {
    Count(1, if r.status >= 500 then 1 else 0, r.bytes)
  }

  function WeekNumber(ts: int): int {
    ComputedWeek(DayOf(ts))
  }

  // ---- The statements --------------------------------------------------------------

  function Upsert(table: seq<Bucket>, service: int, period: int, c: Count): seq<Bucket> {
    if table == [] then [Bucket(service, period, c)]
    else if table[0].service == service && table[0].period == period then
      [table[0].(count := table[0].count.Plus(c))] + table[1..]
    else [table[0]] + Upsert(table[1..], service, period, c)
  }

  function UpsertTotal(table: seq<Lifetime>, service: int, c: Count, ts: int): seq<Lifetime> {
    if table == [] then [Lifetime(service, c, ts, ts)]
    else if table[0].service == service then
      [Lifetime(service, table[0].count.Plus(c), Min(table[0].firstSeen, ts), Max(table[0].lastSeen, ts))] + table[1..]
    else [table[0]] + UpsertTotal(table[1..], service, c, ts)
  }

  function RecentRequests(table: seq<Request>, cutoff: int): seq<Request> {
    if table == [] then []
    else (if table[0].ts < cutoff then [] else [table[0]]) + RecentRequests(table[1..], cutoff)
  }

  /** The daily rows that `DELETE ... WHERE day < cutoff` leaves, or with `past` those it deletes. */
  function SplitDays(table: seq<Bucket>, cutoff: int, past: bool): seq<Bucket> {
    if table == [] then []
    else (if (table[0].period < cutoff) == past then [table[0]] else []) + SplitDays(table[1..], cutoff, past)
  }

  function Record(t: Tables, r: Request): Tables {
    Tables(t.request + [r],
           Upsert(t.daily, r.service, UtcDayNumber(r.ts), One(r)),
           Upsert(t.weekly, r.service, WeekNumber(r.ts), One(r)),
           UpsertTotal(t.total, r.service, One(r), r.ts))
  }

  function RecordAll(t: Tables, rows: seq<Request>): Tables {
    if rows == [] then t else Record(RecordAll(t, rows[..|rows| - 1]), rows[|rows| - 1])
  }

  function RequestCutoff(now: int): int { now - 7 * SECONDS_PER_DAY }

  function DailyCutoff(now: int): int { UtcDayNumber(now - 90 * SECONDS_PER_DAY) }

  function PruneRequests(t: Tables, now: int): Tables {
    t.(request := RecentRequests(t.request, RequestCutoff(now)))
  }

  function PruneDaily(t: Tables, now: int): Tables {
    t.(daily := SplitDays(t.daily, DailyCutoff(now), false))
  }

  class AnalyticsDb {
    var request: seq<Request>
    var daily: seq<Bucket>
    var weekly: seq<Bucket>
    var total: seq<Lifetime>

    constructor ()
      ensures State() == EMPTY
    {
      request, daily, weekly, total := [], [], [], [];
    }

    function State(): Tables
      reads this
    {
      Tables(request, daily, weekly, total)
    }

    /** The `flush` transaction: each row in turn through the four statements. */
    method Flush(rows: seq<Request>)
      modifies this
      ensures State() == RecordAll(old(State()), rows)
    {
      hide Upsert, UpsertTotal, UtcDayNumber, WeekNumber, One;
      ghost var before := State();
      for i := 0 to |rows|
        invariant State() == RecordAll(before, rows[..i])
      {
        var r := rows[i];
        assert rows[..i + 1][..i] == rows[..i];
        request := request + [r];
        daily := Upsert(daily, r.service, UtcDayNumber(r.ts), One(r));
        weekly := Upsert(weekly, r.service, WeekNumber(r.ts), One(r));
        total := UpsertTotal(total, r.service, One(r), r.ts);
      }
      assert rows[..|rows|] == rows;
    }

    /** `runPrune`; each delete is its own transaction, and a crash may come between them. */
    method RunPrune(now: int, crash: bool)
      modifies this
      ensures State() == Apply(old(State()), Prune(now, crash))
    {
      request := RecentRequests(request, RequestCutoff(now));
      if !crash {
        daily := SplitDays(daily, DailyCutoff(now), false);
      }
    }
  }

  // ---- Runs ------------------------------------------------------------------------

  datatype Op = Flush(rows: seq<Request>) | Prune(now: int, crash: bool)

  function Apply(t: Tables, op: Op): Tables {
    match op
    case Flush(rows) => RecordAll(t, rows)
    case Prune(now, crash) => if crash then PruneRequests(t, now) else PruneDaily(PruneRequests(t, now), now)
  }

  /** The tables after `ops`, from an empty database. */
  function Run(ops: seq<Op>): Tables {
    if ops == [] then EMPTY else Apply(Run(ops[..|ops| - 1]), ops[|ops| - 1])
  }

  /** All rows the operations flushed. */
  function Flushed(ops: seq<Op>): seq<Request> {
    if ops == [] then [] else
      Flushed(ops[..|ops| - 1]) + match ops[|ops| - 1] { case Flush(rows) => rows case Prune(_, _) => [] }
  }

  /** All daily rows the operations deleted. */
  function Deleted(ops: seq<Op>): seq<Bucket> {
    if ops == [] then [] else
      Deleted(ops[..|ops| - 1]) +
      match ops[|ops| - 1]
      case Flush(_) => []
      case Prune(now, crash) => if crash then [] else SplitDays(Run(ops[..|ops| - 1]).daily, DailyCutoff(now), true)
  }

  // ---- What the tables say ---------------------------------------------------------

  /** The rows of a service, of one period or of all. */
  predicate IsOf(b: Bucket, service: int, period: Option<int>) {
    b.service == service && (period.Some? ==> b.period == period.value)
  }

  /** What they add up to. */
  function SumOf(table: seq<Bucket>, service: int, period: Option<int>, m: Measure): int {
    if table == [] then 0
    else (if IsOf(table[0], service, period) then table[0].count.Of(m) else 0) + SumOf(table[1..], service, period, m)
  }

  /** What a tier says about one service and period. */
  function Lookup(table: seq<Bucket>, service: int, period: int, m: Measure): int {
    if table == [] then 0
    else if table[0].service == service && table[0].period == period then table[0].count.Of(m)
    else Lookup(table[1..], service, period, m)
  }

  function TotalOf(table: seq<Lifetime>, service: int, m: Measure): int {
    if table == [] then 0
    else if table[0].service == service then table[0].count.Of(m)
    else TotalOf(table[1..], service, m)
  }

  /** The rows of a service. */
  function OfService(rows: seq<Request>, service: int): seq<Request> {
    if rows == [] then []
    else
      var last := rows[|rows| - 1];
      OfService(rows[..|rows| - 1], service) + if last.service == service then [last] else []
  }

  datatype Tier = Daily | Weekly

  function PeriodOf(tier: Tier, ts: int): int {
    match tier
    case Daily => UtcDayNumber(ts)
    case Weekly => ComputedWeek(DayOf(ts))
  }

  /** The rows of a UTC day, or of a week. */
  function InPeriod(rows: seq<Request>, tier: Tier, period: int): seq<Request> {
    if rows == [] then []
    else
      var last := rows[|rows| - 1];
      InPeriod(rows[..|rows| - 1], tier, period) + if PeriodOf(tier, last.ts) == period then [last] else []
  }

  /** The rows the server failed on. */
  function Failed(rows: seq<Request>): seq<Request> {
    if rows == [] then []
    else
      var last := rows[|rows| - 1];
      Failed(rows[..|rows| - 1]) + if last.status >= 500 then [last] else []
  }

  function BytesOf(rows: seq<Request>): int {
    if rows == [] then 0 else BytesOf(rows[..|rows| - 1]) + rows[|rows| - 1].bytes
  }

  /** What there is to count in some rows: the rows, the failed ones, and the bytes of all. */
  function Amount(rows: seq<Request>, m: Measure): int {
    match m
    case Requests => |rows|
    case Errors => |Failed(rows)|
    case Bytes => BytesOf(rows)
  }

  /** How many detailed rows there are of a service on a day. */
  function RowsOn(table: seq<Request>, service: int, day: int): nat {
    if table == [] then 0
    else
      var last := table[|table| - 1];
      RowsOn(table[..|table| - 1], service, day)
      + if last.service == service && UtcDayNumber(last.ts) == day then 1 else 0
  }

  predicate HasKey(table: seq<Bucket>, service: int, period: int) {
    exists i :: 0 <= i < |table| && table[i].service == service && table[i].period == period
  }

  /** No two rows share their primary key. */
  predicate UniqueKeys(table: seq<Bucket>) {
    table == [] || (!HasKey(table[1..], table[0].service, table[0].period) && UniqueKeys(table[1..]))
  }

  // ---- What one statement does -----------------------------------------------------

  lemma SumCons(b: Bucket, rest: seq<Bucket>, s: int, p: Option<int>, m: Measure)
    ensures SumOf([b] + rest, s, p, m) == (if IsOf(b, s, p) then b.count.Of(m) else 0) + SumOf(rest, s, p, m)
  {
    assert ([b] + rest)[1..] == rest;
  }

  lemma LookupCons(b: Bucket, rest: seq<Bucket>, s: int, p: int, m: Measure)
    ensures Lookup([b] + rest, s, p, m)
         == if b.service == s && b.period == p then b.count.Of(m) else Lookup(rest, s, p, m)
  {
    assert ([b] + rest)[1..] == rest;
  }

  lemma {:induction false} UpsertSum(table: seq<Bucket>, service: int, period: int, c: Count, s: int, p: Option<int>,
                                     m: Measure)
    ensures SumOf(Upsert(table, service, period, c), s, p, m) ==
            SumOf(table, s, p, m) + if IsOf(Bucket(service, period, c), s, p) then c.Of(m) else 0
  {
    if table == [] {
      SumCons(Bucket(service, period, c), [], s, p, m);
    } else {
      var head, rest := table[0], table[1..];
      UpsertSum(rest, service, period, c, s, p, m);
      SumCons(head.(count := head.count.Plus(c)), rest, s, p, m);
      SumCons(head, Upsert(rest, service, period, c), s, p, m);
    }
  }

  lemma {:induction false} UpsertLookup(table: seq<Bucket>, service: int, period: int, c: Count, s: int, p: int,
                                        m: Measure)
    ensures Lookup(Upsert(table, service, period, c), s, p, m)
         == Lookup(table, s, p, m) + if s == service && p == period then c.Of(m) else 0
  {
    if table == [] {
      LookupCons(Bucket(service, period, c), [], s, p, m);
    } else {
      var head, rest := table[0], table[1..];
      UpsertLookup(rest, service, period, c, s, p, m);
      LookupCons(head.(count := head.count.Plus(c)), rest, s, p, m);
      LookupCons(head, Upsert(rest, service, period, c), s, p, m);
    }
  }

  lemma TotalCons(row: Lifetime, rest: seq<Lifetime>, s: int, m: Measure)
    ensures TotalOf([row] + rest, s, m) == if row.service == s then row.count.Of(m) else TotalOf(rest, s, m)
  {
    assert ([row] + rest)[1..] == rest;
  }

  lemma {:induction false} UpsertTotalOf(table: seq<Lifetime>, service: int, c: Count, ts: int, s: int, m: Measure)
    ensures TotalOf(UpsertTotal(table, service, c, ts), s, m)
         == TotalOf(table, s, m) + if s == service then c.Of(m) else 0
  {
    hide Min, Max;
    if table == [] {
      TotalCons(Lifetime(service, c, ts, ts), [], s, m);
    } else {
      var head, rest := table[0], table[1..];
      UpsertTotalOf(rest, service, c, ts, s, m);
      TotalCons(Lifetime(service, head.count.Plus(c), Min(head.firstSeen, ts), Max(head.lastSeen, ts)), rest, s, m);
      TotalCons(head, UpsertTotal(rest, service, c, ts), s, m);
    }
  }

  lemma {:induction false} SplitSum(table: seq<Bucket>, cutoff: int, s: int, p: Option<int>, m: Measure)
    ensures SumOf(table, s, p, m)
         == SumOf(SplitDays(table, cutoff, false), s, p, m) + SumOf(SplitDays(table, cutoff, true), s, p, m)
  {
    hide IsOf;
    if table != [] {
      var head, rest := table[0], table[1..];
      SplitSum(rest, cutoff, s, p, m);
      SumCons(head, SplitDays(rest, cutoff, false), s, p, m);
      SumCons(head, SplitDays(rest, cutoff, true), s, p, m);
      assert [] + SplitDays(rest, cutoff, true) == SplitDays(rest, cutoff, true);
      assert [] + SplitDays(rest, cutoff, false) == SplitDays(rest, cutoff, false);
    }
  }

  lemma {:induction false} SumAppend(a: seq<Bucket>, b: seq<Bucket>, s: int, p: Option<int>, m: Measure)
    ensures SumOf(a + b, s, p, m) == SumOf(a, s, p, m) + SumOf(b, s, p, m)
  {
    hide IsOf;
    if a == [] {
      assert a + b == b;
    } else {
      SumAppend(a[1..], b, s, p, m);
      SumCons(a[0], a[1..] + b, s, p, m);
      assert [a[0]] + (a[1..] + b) == a + b;
    }
  }

  lemma {:induction false} SplitLookup(table: seq<Bucket>, cutoff: int, s: int, p: int, m: Measure)
    ensures Lookup(SplitDays(table, cutoff, false), s, p, m) == if p < cutoff then 0 else Lookup(table, s, p, m)
  {
    if table != [] {
      SplitLookup(table[1..], cutoff, s, p, m);
      var kept := SplitDays(table[1..], cutoff, false);
      LookupCons(table[0], kept, s, p, m);
      assert [] + kept == kept;
    }
  }

  // ---- One more row ----------------------------------------------------------------

  /** What a row adds to a count is what there is to count in it. */
  lemma AmountLast(rows: seq<Request>, r: Request, m: Measure)
    ensures Amount(rows + [r], m) == Amount(rows, m) + One(r).Of(m)
  {
    assert (rows + [r])[..|rows|] == rows;
  }

  lemma OfServiceLast(rows: seq<Request>, r: Request, s: int)
    ensures OfService(rows + [r], s) == OfService(rows, s) + if r.service == s then [r] else []
  {
    assert (rows + [r])[..|rows|] == rows;
  }

  lemma InPeriodLast(rows: seq<Request>, r: Request, tier: Tier, p: int)
    ensures InPeriod(rows + [r], tier, p) == InPeriod(rows, tier, p) + if PeriodOf(tier, r.ts) == p then [r] else []
  {
    hide PeriodOf;
    assert (rows + [r])[..|rows|] == rows;
  }

  /** What there is to count of a service, in one period or in all. */
  function Tally(rows: seq<Request>, s: int, tier: Tier, p: Option<int>, m: Measure): int {
    var own := OfService(rows, s);
    Amount(if p.Some? then InPeriod(own, tier, p.value) else own, m)
  }

  /** What one row adds. */
  function Adds(r: Request, s: int, tier: Tier, p: Option<int>, m: Measure): int {
    if r.service == s && (p.Some? ==> PeriodOf(tier, r.ts) == p.value) then One(r).Of(m) else 0
  }

  lemma TallyLast(rows: seq<Request>, r: Request, s: int, tier: Tier, p: Option<int>, m: Measure)
    ensures Tally(rows + [r], s, tier, p, m) == Tally(rows, s, tier, p, m) + Adds(r, s, tier, p, m)
  {
    hide PeriodOf, OfService, InPeriod, Amount, One;
    var own := OfService(rows, s);
    OfServiceLast(rows, r, s);
    if r.service == s {
      AmountLast(own, r, m);
      if p.Some? {
        InPeriodLast(own, r, tier, p.value);
        AmountLast(InPeriod(own, tier, p.value), r, m);
      }
    }
    if p.Some? { assert InPeriod(own, tier, p.value) + [] == InPeriod(own, tier, p.value); }
    assert own + [] == own;
  }

  lemma NoTally(s: int, tier: Tier, p: Option<int>, m: Measure)
    ensures Tally([], s, tier, p, m) == 0
  {
  }

  lemma {:induction false} TallyAppend(a: seq<Request>, b: seq<Request>, s: int, tier: Tier, p: Option<int>, m: Measure)
    ensures Tally(a + b, s, tier, p, m) == Tally(a, s, tier, p, m) + Tally(b, s, tier, p, m)
    decreases |b|
  {
    hide Tally, Adds;
    if b == [] {
      NoTally(s, tier, p, m);
      assert a + b == a;
    } else {
      var init, r := b[..|b| - 1], b[|b| - 1];
      TallyAppend(a, init, s, tier, p, m);
      TallyLast(a + init, r, s, tier, p, m);
      TallyLast(init, r, s, tier, p, m);
      assert a + init + [r] == a + b && init + [r] == b;
    }
  }

  // ---- Conservation ----------------------------------------------------------------

  /** A service's lifetime, weekly and daily counts grow by what there is to count in the rows recorded. */
  lemma {:induction false} RecordGrows(t: Tables, rows: seq<Request>, s: int, p: Option<int>, m: Measure)
    ensures var u := RecordAll(t, rows);
      && (p.None? ==> TotalOf(u.total, s, m) == TotalOf(t.total, s, m) + Tally(rows, s, Daily, p, m))
      && SumOf(u.weekly, s, p, m) == SumOf(t.weekly, s, p, m) + Tally(rows, s, Weekly, p, m)
      && SumOf(u.daily, s, p, m) == SumOf(t.daily, s, p, m) + Tally(rows, s, Daily, p, m)
    decreases |rows|
  {
    hide Record, SumOf, TotalOf, Tally, Adds;
    if rows == [] {
      NoTally(s, Daily, p, m);
      NoTally(s, Weekly, p, m);
    } else {
      var init, r := rows[..|rows| - 1], rows[|rows| - 1];
      RecordGrows(t, init, s, p, m);
      RowGrows(RecordAll(t, init), r, s, p, m);
      assert rows == init + [r];
      TallyLast(init, r, s, Daily, p, m);
      TallyLast(init, r, s, Weekly, p, m);
    }
  }

  lemma Periods(ts: int)
    ensures PeriodOf(Daily, ts) == UtcDayNumber(ts) && PeriodOf(Weekly, ts) == WeekNumber(ts)
  {
    hide UtcDayNumber, ComputedWeek, DayOf;
  }

  lemma RowGrows(t: Tables, r: Request, s: int, p: Option<int>, m: Measure)
    ensures var u := Record(t, r);
      && (p.None? ==> TotalOf(u.total, s, m) == TotalOf(t.total, s, m) + Adds(r, s, Daily, p, m))
      && SumOf(u.weekly, s, p, m) == SumOf(t.weekly, s, p, m) + Adds(r, s, Weekly, p, m)
      && SumOf(u.daily, s, p, m) == SumOf(t.daily, s, p, m) + Adds(r, s, Daily, p, m)
  {
    Periods(r.ts);
    hide Upsert, UpsertTotal, UtcDayNumber, WeekNumber, PeriodOf, One, SumOf, TotalOf;
    UpsertTotalOf(t.total, r.service, One(r), r.ts, s, m);
    UpsertSum(t.weekly, r.service, WeekNumber(r.ts), One(r), s, p, m);
    UpsertSum(t.daily, r.service, UtcDayNumber(r.ts), One(r), s, p, m);
  }

  /** What pruning takes off the days it adds to what was deleted. */
  lemma PruneMoves(daily: seq<Bucket>, deleted: seq<Bucket>, cutoff: int, s: int, p: Option<int>, m: Measure)
    ensures SumOf(SplitDays(daily, cutoff, false), s, p, m)
            + SumOf(deleted + SplitDays(daily, cutoff, true), s, p, m) ==
            SumOf(daily, s, p, m) + SumOf(deleted, s, p, m)
  {
    SplitSum(daily, cutoff, s, p, m);
    SumAppend(deleted, SplitDays(daily, cutoff, true), s, p, m);
  }

  /** What every tier says of these rows, where these days were deleted, for a service and one period or all. */
  ghost predicate Says(t: Tables, rows: seq<Request>, deleted: seq<Bucket>, s: int, p: Option<int>, m: Measure) {
    && (p.None? ==> TotalOf(t.total, s, m) == Tally(rows, s, Daily, p, m))
    && SumOf(t.weekly, s, p, m) == Tally(rows, s, Weekly, p, m)
    && SumOf(t.daily, s, p, m) + SumOf(deleted, s, p, m) == Tally(rows, s, Daily, p, m)
  }

  lemma NothingYet(s: int, p: Option<int>, m: Measure)
    ensures Says(EMPTY, [], [], s, p, m)
  {
  }

  lemma FlushSays(t: Tables, before: seq<Request>, deleted: seq<Bucket>, rows: seq<Request>, s: int, p: Option<int>,
                  m: Measure)
    requires Says(t, before, deleted, s, p, m)
    ensures Says(RecordAll(t, rows), before + rows, deleted, s, p, m)
  {
    hide RecordAll, SumOf, TotalOf, Tally;
    RecordGrows(t, rows, s, p, m);
    TallyAppend(before, rows, s, Daily, p, m);
    TallyAppend(before, rows, s, Weekly, p, m);
  }

  lemma PruneSays(t: Tables, rows: seq<Request>, deleted: seq<Bucket>, now: int, s: int, p: Option<int>, m: Measure)
    requires Says(t, rows, deleted, s, p, m)
    ensures Says(PruneRequests(t, now), rows, deleted, s, p, m)
    ensures var past := SplitDays(t.daily, DailyCutoff(now), true);
      Says(PruneDaily(PruneRequests(t, now), now), rows, deleted + past, s, p, m)
  {
    hide SumOf, TotalOf, Tally, SplitDays, RecentRequests, DailyCutoff, RequestCutoff;
    PruneMoves(t.daily, deleted, DailyCutoff(now), s, p, m);
  }

  /** Every tier says this after any operations. */
  lemma {:induction false} TiersGrow(ops: seq<Op>, s: int, p: Option<int>, m: Measure)
    ensures Says(Run(ops), Flushed(ops), Deleted(ops), s, p, m)
    decreases |ops|
  {
    hide Says, RecordAll, PruneRequests, PruneDaily, SplitDays, DailyCutoff;
    if ops == [] {
      NothingYet(s, p, m);
    } else {
      var init := ops[..|ops| - 1];
      TiersGrow(init, s, p, m);
      match ops[|ops| - 1]
      case Flush(rows) =>
        FlushSays(Run(init), Flushed(init), Deleted(init), rows, s, p, m);
        assert Deleted(ops) == Deleted(init);
      case Prune(now, crash) =>
        PruneSays(Run(init), Flushed(init), Deleted(init), now, s, p, m);
        assert Flushed(ops) == Flushed(init);
        if crash { assert Deleted(ops) == Deleted(init); }
    }
  }

  /**
   Under any flushes and prunes, a service's lifetime counts are the number of its rows ever
   flushed, of those with a status from 500 on, and the sum of their bytes; they are the sum
   of its weeks; and they are the sum of its surviving days plus the days that pruning deleted.
   */
  lemma TiersAgree(ops: seq<Op>, s: int, m: Measure)
    ensures var t := Run(ops);
      && TotalOf(t.total, s, m) == Amount(OfService(Flushed(ops), s), m)
      && TotalOf(t.total, s, m) == SumOf(t.weekly, s, None, m)
      && TotalOf(t.total, s, m) == SumOf(t.daily, s, None, m) + SumOf(Deleted(ops), s, None, m)
  {
    hide SumOf, TotalOf, Run, Amount, OfService;
    TiersGrow(ops, s, None, m);
  }

  // ---- Each period exactly ---------------------------------------------------------

  lemma {:induction false} AbsentSum(table: seq<Bucket>, s: int, p: int, m: Measure)
    requires !HasKey(table, s, p)
    ensures SumOf(table, s, Some(p), m) == 0
  {
    if table != [] {
      KeyOfRest(table, s, p);
      AbsentSum(table[1..], s, p, m);
    }
  }

  /** With unique keys a lookup is the sum of the rows with that key. */
  lemma {:induction false} LookupIsSum(table: seq<Bucket>, s: int, p: int, m: Measure)
    requires UniqueKeys(table)
    ensures Lookup(table, s, p, m) == SumOf(table, s, Some(p), m)
  {
    hide HasKey;
    if table != [] {
      if table[0].service == s && table[0].period == p {
        AbsentSum(table[1..], s, p, m);
      } else {
        LookupIsSum(table[1..], s, p, m);
      }
    }
  }

  /** A weekly row counts exactly the rows ever flushed for its service and week number. */
  lemma WeeksExact(ops: seq<Op>, s: int, week: int, m: Measure)
    ensures Lookup(Run(ops).weekly, s, week, m) == Amount(InPeriod(OfService(Flushed(ops), s), Weekly, week), m)
  {
    hide SumOf, Run, Amount, OfService, InPeriod, UniqueKeys;
    TiersGrow(ops, s, Some(week), m);
    KeysStayUnique(ops);
    LookupIsSum(Run(ops).weekly, s, week, m);
  }

  /** A daily row, with what pruning deleted of it, counts exactly those of its service and UTC day. */
  lemma DaysExact(ops: seq<Op>, s: int, day: int, m: Measure)
    ensures Lookup(Run(ops).daily, s, day, m) + SumOf(Deleted(ops), s, Some(day), m) ==
            Amount(InPeriod(OfService(Flushed(ops), s), Daily, day), m)
  {
    hide SumOf, Run, Amount, OfService, InPeriod, UniqueKeys;
    TiersGrow(ops, s, Some(day), m);
    KeysStayUnique(ops);
    LookupIsSum(Run(ops).daily, s, day, m);
  }

  // ---- First and last seen ---------------------------------------------------------

  /** `first` and `last` are the earliest and the latest time of a service's rows. */
  ghost predicate Spans(rows: seq<Request>, s: int, first: int, last: int) {
    && (forall i :: 0 <= i < |rows| && rows[i].service == s ==> first <= rows[i].ts <= last)
    && (exists i :: 0 <= i < |rows| && rows[i].service == s && rows[i].ts == first)
    && (exists i :: 0 <= i < |rows| && rows[i].service == s && rows[i].ts == last)
  }

  ghost predicate Mentions(rows: seq<Request>, s: int) {
    exists i :: 0 <= i < |rows| && rows[i].service == s
  }

  function Find(table: seq<Lifetime>, s: int): seq<Lifetime> {
    if table == [] then [] else if table[0].service == s then [table[0]] else Find(table[1..], s)
  }

  ghost predicate SeenExactly(table: seq<Lifetime>, rows: seq<Request>, s: int) {
    var found := Find(table, s);
    if found == [] then !Mentions(rows, s)
    else |found| == 1 && Spans(rows, s, found[0].firstSeen, found[0].lastSeen)
  }

  lemma {:induction false} UpsertFind(table: seq<Lifetime>, service: int, c: Count, ts: int, s: int)
    ensures var was, now := Find(table, s), Find(UpsertTotal(table, service, c, ts), s);
      && |was| <= 1
      && (s != service ==> now == was)
      && (s == service ==> |now| == 1)
      && (s == service && was == [] ==> now[0].firstSeen == now[0].lastSeen == ts)
      && (s == service && was != [] ==>
            now[0].firstSeen == Min(was[0].firstSeen, ts) && now[0].lastSeen == Max(was[0].lastSeen, ts))
  {
    if table == [] {
    } else if table[0].service == service {
      assert UpsertTotal(table, service, c, ts)[1..] == table[1..];
      FindOne(table, s);
    } else {
      UpsertFind(table[1..], service, c, ts, s);
      assert UpsertTotal(table, service, c, ts)[1..] == UpsertTotal(table[1..], service, c, ts);
    }
  }

  lemma {:induction false} FindOne(table: seq<Lifetime>, s: int)
    ensures |Find(table, s)| <= 1
  {
    if table != [] { FindOne(table[1..], s); }
  }

  lemma OneMoreSeen(table: seq<Lifetime>, rows: seq<Request>, r: Request, c: Count, s: int)
    requires SeenExactly(table, rows, s)
    ensures SeenExactly(UpsertTotal(table, r.service, c, r.ts), rows + [r], s)
  {
    hide UpsertTotal, Find;
    UpsertFind(table, r.service, c, r.ts, s);
    SpansMore(rows, r, s);
    var was := Find(table, s);
    if was != [] { SpansGrow(rows, r, s, was[0].firstSeen, was[0].lastSeen); }
  }

  lemma SpansMore(rows: seq<Request>, r: Request, s: int)
    ensures !Mentions(rows, s) && r.service != s ==> !Mentions(rows + [r], s)
    ensures !Mentions(rows, s) && r.service == s ==> Spans(rows + [r], s, r.ts, r.ts)
  {
    assert (rows + [r])[|rows|] == r;
  }

  lemma SpansGrow(rows: seq<Request>, r: Request, s: int, first: int, last: int)
    requires Spans(rows, s, first, last)
    ensures r.service != s ==> Spans(rows + [r], s, first, last)
    ensures r.service == s ==> Spans(rows + [r], s, Min(first, r.ts), Max(last, r.ts))
  {
    var more := rows + [r];
    assert more[|rows|] == r;
    var i :| 0 <= i < |rows| && rows[i].service == s && rows[i].ts == first;
    var j :| 0 <= j < |rows| && rows[j].service == s && rows[j].ts == last;
    assert more[i] == rows[i] && more[j] == rows[j];
  }

  lemma {:induction false} SeenGrows(t: Tables, rows: seq<Request>, more: seq<Request>, s: int)
    requires SeenExactly(t.total, rows, s)
    ensures SeenExactly(RecordAll(t, more).total, rows + more, s)
    decreases |more|
  {
    hide SeenExactly, Upsert, UpsertTotal, One, WeekNumber, UtcDayNumber;
    if more == [] {
      assert rows + more == rows;
    } else {
      var init, r := more[..|more| - 1], more[|more| - 1];
      SeenGrows(t, rows, init, s);
      OneMoreSeen(RecordAll(t, init).total, rows + init, r, One(r), s);
      assert rows + init + [r] == rows + more;
    }
  }

  /** A service has a `total` row exactly when it was ever seen, with its first and its last time. */
  lemma {:induction false} SeenSince(ops: seq<Op>, s: int)
    ensures SeenExactly(Run(ops).total, Flushed(ops), s)
    decreases |ops|
  {
    hide RecordAll, SplitDays, RecentRequests, DailyCutoff, RequestCutoff;
    if ops != [] {
      var init := ops[..|ops| - 1];
      SeenSince(init, s);
      match ops[|ops| - 1]
      case Flush(rows) => SeenGrows(Run(init), Flushed(init), rows, s);
      case Prune(now, crash) => assert Flushed(ops) == Flushed(init);
    }
  }

  // ---- Detailed rows never outnumber their day -------------------------------------

  /** Deleting by time leaves no more rows on a day, and none on a day that lies before the cutoff. */
  lemma {:induction false} RecentRows(table: seq<Request>, cutoff: int, s: int, day: int)
    ensures RowsOn(RecentRequests(table, cutoff), s, day) <= RowsOn(table, s, day)
    ensures day < UtcDayNumber(cutoff) ==> RowsOn(RecentRequests(table, cutoff), s, day) == 0
  {
    hide UtcDayNumber;
    if table != [] {
      RecentRows(table[1..], cutoff, s, day);
      RowsAppend([table[0]], table[1..], s, day);
      assert [table[0]] + table[1..] == table;
      var head := if table[0].ts < cutoff then [] else [table[0]];
      RowsAppend(head, RecentRequests(table[1..], cutoff), s, day);
      OneRow(table[0], s, day);
      if cutoff <= table[0].ts { DaysMonotone(cutoff, table[0].ts); }
    }
  }

  lemma OneRow(r: Request, s: int, day: int)
    ensures RowsOn([r], s, day) == if r.service == s && UtcDayNumber(r.ts) == day then 1 else 0
    ensures RowsOn([], s, day) == 0
  {
    hide UtcDayNumber;
    assert [r][..0] == [];
  }

  lemma {:induction false} RowsAppend(a: seq<Request>, b: seq<Request>, s: int, day: int)
    ensures RowsOn(a + b, s, day) == RowsOn(a, s, day) + RowsOn(b, s, day)
    decreases |b|
  {
    hide UtcDayNumber;
    if b == [] {
      assert a + b == a;
    } else {
      RowsAppend(a, b[..|b| - 1], s, day);
      assert (a + b)[..|a + b| - 1] == a + b[..|b| - 1];
    }
  }

  lemma {:induction false} RecordKeepsCover(t: Tables, rows: seq<Request>, s: int, day: int)
    requires RowsOn(t.request, s, day) <= Lookup(t.daily, s, day, Requests)
    ensures var u := RecordAll(t, rows); RowsOn(u.request, s, day) <= Lookup(u.daily, s, day, Requests)
    decreases |rows|
  {
    hide Upsert, UpsertTotal, UtcDayNumber, WeekNumber, RowsOn, Lookup;
    if rows != [] {
      var init, r := rows[..|rows| - 1], rows[|rows| - 1];
      RecordKeepsCover(t, init, s, day);
      var u := RecordAll(t, init);
      UpsertLookup(u.daily, r.service, UtcDayNumber(r.ts), One(r), s, day, Requests);
      RowsAppend(u.request, [r], s, day);
      OneRow(r, s, day);
    }
  }

  lemma PruneKeepsCover(t: Tables, now: int, s: int, day: int)
    requires RowsOn(t.request, s, day) <= Lookup(t.daily, s, day, Requests)
    ensures var u := PruneRequests(t, now); RowsOn(u.request, s, day) <= Lookup(u.daily, s, day, Requests)
    ensures var u := PruneDaily(PruneRequests(t, now), now);
      RowsOn(u.request, s, day) <= Lookup(u.daily, s, day, Requests)
  {
    hide UtcDayNumber, RowsOn, Lookup, SplitDays, RecentRequests;
    RecentRows(t.request, RequestCutoff(now), s, day);
    SplitLookup(t.daily, DailyCutoff(now), s, day, Requests);
    DaysMonotone(now - 90 * SECONDS_PER_DAY, RequestCutoff(now));
  }

  /**
   Whatever is flushed and pruned, and even if a prune dies half way or the clock goes
   back, the detailed rows of a service on a day never outnumber its daily count.
   */
  lemma {:induction false} DetailCovered(ops: seq<Op>, s: int, day: int)
    ensures RowsOn(Run(ops).request, s, day) <= Lookup(Run(ops).daily, s, day, Requests)
    decreases |ops|
  {
    hide RecordAll, PruneRequests, PruneDaily;
    if ops != [] {
      DetailCovered(ops[..|ops| - 1], s, day);
      match ops[|ops| - 1]
      case Flush(rows) => RecordKeepsCover(Run(ops[..|ops| - 1]), rows, s, day);
      case Prune(now, crash) => PruneKeepsCover(Run(ops[..|ops| - 1]), now, s, day);
    }
  }

  // ---- Retention -------------------------------------------------------------------

  /** Pruning leaves every day after the cutoff's own day complete. */
  lemma {:induction false} RecentDaysComplete(table: seq<Request>, cutoff: int, s: int, day: int)
    requires UtcDayNumber(cutoff) < day
    ensures RowsOn(RecentRequests(table, cutoff), s, day) == RowsOn(table, s, day)
  {
    hide UtcDayNumber;
    if table != [] {
      RecentDaysComplete(table[1..], cutoff, s, day);
      RowsAppend([table[0]], table[1..], s, day);
      assert [table[0]] + table[1..] == table;
      var head := if table[0].ts < cutoff then [] else [table[0]];
      RowsAppend(head, RecentRequests(table[1..], cutoff), s, day);
      OneRow(table[0], s, day);
      if table[0].ts < cutoff { DaysMonotone(table[0].ts, cutoff); }
    }
  }

  /** Deleting keeps a row, as often as it is there, exactly when it is not older than the cutoff. */
  lemma {:induction false} RecentExact(table: seq<Request>, cutoff: int, r: Request)
    ensures multiset(RecentRequests(table, cutoff))[r] == if r.ts < cutoff then 0 else multiset(table)[r]
  {
    if table != [] {
      RecentExact(table[1..], cutoff, r);
      assert table == [table[0]] + table[1..];
    }
  }

  /**
   How often a row was flushed since the last prune, complete or not, that ran more than
   seven days after it.
   */
  function Recent(ops: seq<Op>, r: Request): nat {
    if ops == [] then 0
    else
      match ops[|ops| - 1]
      case Flush(rows) => Recent(ops[..|ops| - 1], r) + multiset(rows)[r]
      case Prune(now, _) => if r.ts + 7 * 86400 < now then 0 else Recent(ops[..|ops| - 1], r)
  }

  lemma {:induction false} RecordsRequests(t: Tables, rows: seq<Request>)
    ensures RecordAll(t, rows).request == t.request + rows
    decreases |rows|
  {
    hide Upsert, UpsertTotal, UtcDayNumber, WeekNumber, One;
    if rows != [] {
      RecordsRequests(t, rows[..|rows| - 1]);
      assert rows == rows[..|rows| - 1] + [rows[|rows| - 1]];
    }
  }

  /** A row is in the table in full detail as often as that. */
  lemma {:induction false} DetailExact(ops: seq<Op>, r: Request)
    ensures multiset(Run(ops).request)[r] == Recent(ops, r)
    decreases |ops|
  {
    hide RecordAll, SplitDays, RecentRequests, DailyCutoff;
    if ops != [] {
      var t := Run(ops[..|ops| - 1]);
      DetailExact(ops[..|ops| - 1], r);
      match ops[|ops| - 1]
      case Flush(rows) => RecordsRequests(t, rows);
      case Prune(now, crash) => RecentExact(t.request, RequestCutoff(now), r);
    }
  }

  /** A day's counts are deleted exactly when it lies more than 90 days back. */
  lemma NinetyDays(now: int, ts: int)
    ensures UtcDayNumber(ts) < DailyCutoff(now) <==> DayOf(ts) < DayOf(now) - 90
  {
    hide UtcDayNumber;
    DayNumbersOrdered(ts, now - 90 * SECONDS_PER_DAY);
  }

  // ---- Primary keys ----------------------------------------------------------------

  lemma {:induction false} UpsertKeys(table: seq<Bucket>, service: int, period: int, c: Count)
    requires UniqueKeys(table)
    ensures UniqueKeys(Upsert(table, service, period, c))
    ensures forall s, p :: HasKey(Upsert(table, service, period, c), s, p) ==>
                             HasKey(table, s, p) || (s == service && p == period)
  {
    var up := Upsert(table, service, period, c);
    if table == [] {
    } else if table[0].service == service && table[0].period == period {
      assert up[1..] == table[1..];
      forall s, p | HasKey(up, s, p) ensures HasKey(table, s, p) {
        var i :| 0 <= i < |up| && up[i].service == s && up[i].period == p;
        assert table[i].service == s && table[i].period == p;
      }
    } else {
      UpsertKeys(table[1..], service, period, c);
      assert up[1..] == Upsert(table[1..], service, period, c);
      forall s, p | HasKey(up, s, p) && !(s == service && p == period) ensures HasKey(table, s, p) {
        KeyOfRest(up, s, p);
        KeyOfRest(table, s, p);
      }
    }
  }

  lemma KeyOfRest(table: seq<Bucket>, s: int, p: int)
    requires table != []
    ensures HasKey(table, s, p) <==> (table[0].service == s && table[0].period == p) || HasKey(table[1..], s, p)
  {
    if HasKey(table, s, p) && !(table[0].service == s && table[0].period == p) {
      var i :| 0 <= i < |table| && table[i].service == s && table[i].period == p;
      assert table[1..][i - 1] == table[i];
    }
    if HasKey(table[1..], s, p) {
      var i :| 0 <= i < |table[1..]| && table[1..][i].service == s && table[1..][i].period == p;
      assert table[i + 1] == table[1..][i];
    }
  }

  lemma {:induction false} SplitKeys(table: seq<Bucket>, cutoff: int, past: bool)
    requires UniqueKeys(table)
    ensures UniqueKeys(SplitDays(table, cutoff, past))
    ensures forall s, p :: HasKey(SplitDays(table, cutoff, past), s, p) ==> HasKey(table, s, p)
  {
    if table != [] {
      SplitKeys(table[1..], cutoff, past);
      var rest, all := SplitDays(table[1..], cutoff, past), SplitDays(table, cutoff, past);
      assert ([table[0]] + rest)[1..] == rest && [] + rest == rest;
      forall s, p | HasKey(all, s, p) ensures HasKey(table, s, p) {
        KeyOfRest(all, s, p);
        KeyOfRest(table, s, p);
      }
    }
  }

  lemma {:induction false} RecordKeys(t: Tables, rows: seq<Request>)
    requires UniqueKeys(t.daily) && UniqueKeys(t.weekly)
    ensures UniqueKeys(RecordAll(t, rows).daily) && UniqueKeys(RecordAll(t, rows).weekly)
    decreases |rows|
  {
    hide UniqueKeys, HasKey, Upsert, UpsertTotal, UtcDayNumber, WeekNumber;
    if rows != [] {
      var init, r := rows[..|rows| - 1], rows[|rows| - 1];
      RecordKeys(t, init);
      var u := RecordAll(t, init);
      UpsertKeys(u.daily, r.service, UtcDayNumber(r.ts), One(r));
      UpsertKeys(u.weekly, r.service, WeekNumber(r.ts), One(r));
    }
  }

  /** A service never has two rows for one day or for one week. */
  lemma {:induction false} KeysStayUnique(ops: seq<Op>)
    ensures UniqueKeys(Run(ops).daily) && UniqueKeys(Run(ops).weekly)
    decreases |ops|
  {
    hide UniqueKeys, RecordAll, SplitDays, RecentRequests, DailyCutoff;
    if ops == [] {
      assert UniqueKeys([]) by { NoKeys(); }
    } else {
      var t := Run(ops[..|ops| - 1]);
      KeysStayUnique(ops[..|ops| - 1]);
      match ops[|ops| - 1]
      case Flush(rows) => RecordKeys(t, rows);
      case Prune(now, crash) => SplitKeys(t.daily, DailyCutoff(now), false);
    }
  }

  lemma NoKeys()
    ensures UniqueKeys([])
  {
  }
}
