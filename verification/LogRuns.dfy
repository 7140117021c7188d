/**
 Runs of the access-log reader over appends, rotations, polls, crashes and restarts
 (ingest.ts).

 `flush` and `persistTailState` are two transactions, so a crash can fall between them
 (`Flushing`). What the source then guarantees is `AtMostOneReplay`: a line is counted at
 most once more than the number of such crashes whose last batch held it. The comment
 above `persistTailState` claims more; `CrashReplays` is a run that contradicts it.
 */
module LogRuns {
  import opened Wrappers
  import opened LogTail

  /** The lines of a file from one line start to another. */
  datatype Range = Range(file: nat, lo: nat, hi: nat)

  datatype Worker =
    | Down
    | Idle                                    // running, no file open
    | Open(file: nat, base: nat)              // all lines before `base` handled
    | Flushing(file: nat, lo: nat, hi: nat)   // batch committed, position not yet saved

  /**
   Files are numbered in the order of their creation, so identities are never reused;
   only the newest can be at the path. `flushed` logs the committed batches, `skipped`
   the lines that parse to nothing, `replayable` the last batch at each crash that fell
   between a flush and its save.
   */
  datatype State = State(
    files: seq<seq<Byte>>,
    atPath: bool,
    worker: Worker,
    saved: Option<Range>,                     // lo is 0, hi the offset
    flushed: seq<Range>,
    skipped: seq<Range>,
    replayable: seq<Range>)

  datatype Step =
    | Append(file: nat, bytes: seq<Byte>)
    | Unlink
    | Create
    | Start
    | FlushBatch(hi: nat)
    | Save
    | Skip(hi: nat)
    | SaveTrailing
    | Reopen
    | Crash

  const INITIAL := State([], false, Down, None, [], [], [])

  /** Lines of the open file from `base` to `hi`, with how many rows. */
  ghost predicate Reach<Row>(s: State, hi: nat, parse: seq<Byte> -> Option<Row>) {
    && s.worker.Open? && s.worker.file < |s.files|
    && s.worker.base <= hi <= |s.files[s.worker.file]|
    && Boundary(s.files[s.worker.file], hi)
  }

  ghost function RowsAhead<Row>(s: State, hi: nat, parse: seq<Byte> -> Option<Row>): seq<Row>
    requires Reach(s, hi, parse)
  {
    Rows(s.files[s.worker.file][s.worker.base..hi], parse)
  }

  ghost predicate Enabled<Row>(s: State, step: Step, parse: seq<Byte> -> Option<Row>) {
    match step
    case Append(file, _) => file < |s.files|
    case Unlink => s.atPath
    case Create => !s.atPath
    case Start => s.worker.Down?
    case FlushBatch(hi) => Reach(s, hi, parse) && 1 <= |RowsAhead(s, hi, parse)| <= BATCH_SIZE
    case Save => s.worker.Flushing?
    case Skip(hi) => Reach(s, hi, parse) && RowsAhead(s, hi, parse) == []
    case SaveTrailing => s.worker.Open?
    case Reopen =>
      s.atPath && s.files != [] && (s.worker.Idle? || (s.worker.Open? && s.worker.file != |s.files| - 1))
    case Crash => true
  }

  function Position(s: State, file: nat): nat {
    if s.saved.Some? && s.saved.value.file == file then s.saved.value.hi else 0
  }

  function Apply(s: State, step: Step): State {
    match step
    case Append(file, bytes) =>
      if file < |s.files| then s.(files := s.files[file := s.files[file] + bytes]) else s
    case Unlink => s.(atPath := false)
    case Create => s.(files := s.files + [[]], atPath := true)
    case Start =>
      if s.atPath && s.files != [] then s.(worker := Open(|s.files| - 1, Position(s, |s.files| - 1)))
      else s.(worker := Idle)
    case FlushBatch(hi) =>
      if s.worker.Open? then
        s.(worker := Flushing(s.worker.file, s.worker.base, hi),
           flushed := s.flushed + [Range(s.worker.file, s.worker.base, hi)])
      else s
    case Save =>
      if s.worker.Flushing? then
        s.(worker := Open(s.worker.file, s.worker.hi), saved := Some(Range(s.worker.file, 0, s.worker.hi)))
      else s
    case Skip(hi) =>
      if s.worker.Open? then
        s.(worker := Open(s.worker.file, hi), skipped := s.skipped + [Range(s.worker.file, s.worker.base, hi)])
      else s
    case SaveTrailing =>
      if s.worker.Open? then s.(saved := Some(Range(s.worker.file, 0, s.worker.base))) else s
    case Reopen => if s.files != [] then s.(worker := Open(|s.files| - 1, 0)) else s
    case Crash =>
      if s.worker.Flushing? then
        s.(worker := Down, replayable := s.replayable + [Range(s.worker.file, s.worker.lo, s.worker.hi)])
      else s.(worker := Down)
  }

  function Run(s: State, steps: seq<Step>): State {
    if steps == [] then s else Apply(Run(s, steps[..|steps| - 1]), steps[|steps| - 1])
  }

  ghost predicate Valid<Row>(s: State, steps: seq<Step>, parse: seq<Byte> -> Option<Row>) {
    steps == [] ||
    var n := |steps| - 1;
    Valid(s, steps[..n], parse) && Enabled(Run(s, steps[..n]), steps[n], parse)
  }

  // ---- Counting ------------------------------------------------------------------

  /** How many of the ranges hold the byte at `x` of `file`. */
  function Count(ranges: seq<Range>, file: nat, x: nat): nat {
    if ranges == [] then 0
    else
      var r := ranges[|ranges| - 1];
      Count(ranges[..|ranges| - 1], file, x) + if r.file == file && r.lo <= x < r.hi then 1 else 0
  }

  lemma CountThen(ranges: seq<Range>, r: Range)
    ensures forall file: nat, x: nat :: Count(ranges + [r], file, x) ==
              Count(ranges, file, x) + if r.file == file && r.lo <= x < r.hi then 1 else 0
  {
    assert (ranges + [r])[..|ranges|] == ranges;
  }

  lemma {:induction false} CountUnknown(ranges: seq<Range>, file: nat, x: nat)
    requires forall i :: 0 <= i < |ranges| ==> ranges[i].file < file
    ensures Count(ranges, file, x) == 0
    decreases |ranges|
  {
    if ranges != [] { CountUnknown(ranges[..|ranges| - 1], file, x); }
  }

  // ---- What every step keeps -----------------------------------------------------

  /** The byte at `x` of `file` is in a committed batch or in a line that parses to nothing. */
  predicate Handled(flushed: seq<Range>, skipped: seq<Range>, file: nat, x: nat) {
    Count(flushed, file, x) >= 1 || Count(skipped, file, x) >= 1
  }

  ghost predicate HandledTo(s: State, file: nat, hi: nat) {
    forall x: nat :: x < hi ==> Handled(s.flushed, s.skipped, file, x)
  }

  /** The oldest file that may still be read: the open one, or the one a restart would open. */
  function Low(s: State): nat {
    match s.worker
    case Open(file, _) => file
    case Flushing(file, _, _) => file
    case _ => if s.atPath && s.files != [] then |s.files| - 1 else |s.files|
  }

  /** 1 for the lines of the batch that is committed but not yet saved. */
  function Pending(s: State, file: nat, x: nat): nat {
    if s.worker.Flushing? && s.worker.file == file && s.worker.lo <= x < s.worker.hi then 1 else 0
  }

  ghost predicate Ordered(s: State) {
    && (s.atPath ==> s.files != [])
    && (s.saved.Some? ==> s.saved.value.file < |s.files| && s.saved.value.file <= Low(s))
    && (s.saved.Some? && s.worker.Idle? ==> s.saved.value.file < Low(s))
    && (s.worker.Open? || s.worker.Flushing? ==> s.worker.file < |s.files|)
    && (forall i :: 0 <= i < |s.flushed| ==> s.flushed[i].file < |s.files|)
  }

  /** Everything before the saved position, and before the worker, has been handled. */
  ghost predicate NothingLost(s: State) {
    && (s.saved.Some? ==> HandledTo(s, s.saved.value.file, s.saved.value.hi))
    && (s.worker.Open? ==>
          Position(s, s.worker.file) <= s.worker.base && HandledTo(s, s.worker.file, s.worker.base))
    && (s.worker.Flushing? ==>
          Position(s, s.worker.file) <= s.worker.lo <= s.worker.hi && HandledTo(s, s.worker.file, s.worker.hi))
  }

  /** What lies ahead has been counted only by batches that a crash made replayable. */
  ghost predicate FreshAhead(s: State) {
    forall file: nat, x: nat {:trigger Count(s.flushed, file, x)} :: Low(s) <= file && Position(s, file) <= x ==>
      Count(s.flushed, file, x) <= Count(s.replayable, file, x) + Pending(s, file, x)
  }

  ghost predicate BoundedReplay(s: State) {
    forall file: nat, x: nat {:trigger Count(s.flushed, file, x)} ::
      Count(s.flushed, file, x) <= 1 + Count(s.replayable, file, x)
  }

  ghost predicate Inv(s: State) {
    Ordered(s) && NothingLost(s) && FreshAhead(s) && BoundedReplay(s)
  }

  /** One more range handles its own lines and forgets none. */
  lemma HandledGrows(s: State, s': State, r: Range, file: nat, hi: nat)
    requires (s'.flushed == s.flushed + [r] && s'.skipped == s.skipped)
             || (s'.flushed == s.flushed && s'.skipped == s.skipped + [r])
    requires HandledTo(s, file, hi)
    ensures HandledTo(s', file, hi)
    ensures r.file == file && r.lo <= hi <= r.hi ==> HandledTo(s', file, r.hi)
  {
    CountThen(s.flushed, r);
    CountThen(s.skipped, r);
    forall x: nat | x < hi || (r.file == file && r.lo <= x < r.hi) ensures Handled(s'.flushed, s'.skipped, file, x) {
      assert x < hi ==> Handled(s.flushed, s.skipped, file, x);
    }
  }

  lemma FlushKeeps(s: State, hi: nat)
    requires Inv(s) && s.worker.Open? && s.worker.base <= hi
    ensures Inv(Apply(s, FlushBatch(hi)))
  {
    var s', r := Apply(s, FlushBatch(hi)), Range(s.worker.file, s.worker.base, hi);
    CountThen(s.flushed, r);
    HandledGrows(s, s', r, s.worker.file, s.worker.base);
    if s.saved.Some? { HandledGrows(s, s', r, s.saved.value.file, s.saved.value.hi); }
  }

  lemma SkipKeeps(s: State, hi: nat)
    requires Inv(s) && s.worker.Open? && s.worker.base <= hi
    ensures Inv(Apply(s, Skip(hi)))
  {
    var s', r := Apply(s, Skip(hi)), Range(s.worker.file, s.worker.base, hi);
    HandledGrows(s, s', r, s.worker.file, s.worker.base);
    if s.saved.Some? { HandledGrows(s, s', r, s.saved.value.file, s.saved.value.hi); }
  }

  lemma SaveKeeps(s: State, step: Step)
    requires Inv(s) && (step == Save || step == SaveTrailing)
    ensures Inv(Apply(s, step))
  {
  }

  /** A crash keeps the invariant if what was committed and not saved becomes replayable. */
  lemma CrashKeeps(s: State, replayable: seq<Range>)
    requires Inv(s)
    requires forall file: nat, x: nat ::
               Count(replayable, file, x) == Count(s.replayable, file, x) + Pending(s, file, x)
    ensures Inv(s.(worker := Down, replayable := replayable))
  {
    hide Count;
  }

  lemma CrashCount(s: State)
    ensures var t := Apply(s, Crash);
      forall file: nat, x: nat :: Count(t.replayable, file, x) == Count(s.replayable, file, x) + Pending(s, file, x)
  {
    if s.worker.Flushing? { CountThen(s.replayable, Range(s.worker.file, s.worker.lo, s.worker.hi)); }
    hide Count;
  }

  lemma OpenKeeps(s: State, step: Step)
    requires Inv(s)
    requires (step == Start && s.worker.Down?)
             || (step == Reopen && s.atPath && (s.worker.Idle? || (s.worker.Open? && s.worker.file != |s.files| - 1)))
    ensures Inv(Apply(s, step))
  {
  }

  lemma WorldKeeps(s: State, step: Step)
    requires Inv(s) && (step.Append? || (step.Unlink? && s.atPath) || (step.Create? && !s.atPath))
    ensures Inv(Apply(s, step))
  {
    forall x: nat ensures Count(s.flushed, |s.files|, x) == 0 { CountUnknown(s.flushed, |s.files|, x); }
  }

  /** Every step keeps the invariant. */
  lemma StepKeeps<Row>(s: State, step: Step, parse: seq<Byte> -> Option<Row>)
    requires Inv(s) && Enabled(s, step, parse)
    ensures Inv(Apply(s, step))
  {
    hide Inv;
    match step
    case Append(_, _) => WorldKeeps(s, step);
    case Unlink => WorldKeeps(s, step);
    case Create => WorldKeeps(s, step);
    case Start => OpenKeeps(s, step);
    case FlushBatch(hi) => FlushKeeps(s, hi);
    case Save => SaveKeeps(s, step);
    case Skip(hi) => SkipKeeps(s, hi);
    case SaveTrailing => SaveKeeps(s, step);
    case Reopen => OpenKeeps(s, step);
    case Crash =>
      CrashCount(s);
      CrashKeeps(s, Apply(s, Crash).replayable);
  }

  lemma {:induction false} RunKeeps<Row>(steps: seq<Step>, parse: seq<Byte> -> Option<Row>)
    requires Valid(INITIAL, steps, parse)
    ensures Inv(Run(INITIAL, steps))
    decreases |steps|
  {
    if steps != [] {
      RunKeeps(steps[..|steps| - 1], parse);
      StepKeeps(Run(INITIAL, steps[..|steps| - 1]), steps[|steps| - 1], parse);
    }
  }

  // ---- Claims about every run ------------------------------------------------------

  /** Skipped ranges are whole lines, and none of them parses to a row. */
  ghost predicate SkipsEmpty<Row>(s: State, parse: seq<Byte> -> Option<Row>) {
    && (s.worker.Open? ==> s.worker.file < |s.files| && Boundary(s.files[s.worker.file], s.worker.base))
    && (s.worker.Flushing? ==> s.worker.file < |s.files| && Boundary(s.files[s.worker.file], s.worker.hi))
    && (s.saved.Some? ==> s.saved.value.file < |s.files| && Boundary(s.files[s.saved.value.file], s.saved.value.hi))
    && forall r :: r in s.skipped ==> Empty(s.files, r, parse)
  }

  ghost predicate Empty<Row>(files: seq<seq<Byte>>, r: Range, parse: seq<Byte> -> Option<Row>) {
    && r.file < |files| && r.lo <= r.hi <= |files[r.file]|
    && Boundary(files[r.file], r.lo) && Boundary(files[r.file], r.hi)
    && Rows(files[r.file][r.lo..r.hi], parse) == []
  }

  lemma SkipsEmptyKept<Row>(s: State, step: Step, parse: seq<Byte> -> Option<Row>)
    requires SkipsEmpty(s, parse) && Enabled(s, step, parse)
    ensures SkipsEmpty(Apply(s, step), parse)
  {
    hide Rows;
    var s' := Apply(s, step);
    assert forall i :: 0 <= i < |s.files| ==> i < |s'.files| && s.files[i] <= s'.files[i];
    forall r | r in s.skipped ensures Empty(s'.files, r, parse) {
      assert Empty(s.files, r, parse);
      assert s'.files[r.file][r.lo..r.hi] == s.files[r.file][r.lo..r.hi];
    }
  }

  lemma {:induction false} RunSkipsEmpty<Row>(steps: seq<Step>, parse: seq<Byte> -> Option<Row>)
    requires Valid(INITIAL, steps, parse)
    ensures SkipsEmpty(Run(INITIAL, steps), parse)
    decreases |steps|
  {
    if steps != [] {
      RunSkipsEmpty(steps[..|steps| - 1], parse);
      SkipsEmptyKept(Run(INITIAL, steps[..|steps| - 1]), steps[|steps| - 1], parse);
    }
  }

  /** A line that parses to a row makes every range of whole lines around it nonempty. */
  lemma LineInRange<Row>(file: seq<Byte>, lo: nat, hi: nat, a: nat, line: seq<Byte>, parse: seq<Byte> -> Option<Row>)
    requires Boundary(file, lo) && Boundary(file, hi) && Boundary(file, a) && lo <= a < hi
    requires LF !in line && a + |line| + 1 <= |file| && file[a..a + |line| + 1] == line + [LF]
    requires parse(line).Some?
    ensures Rows(file[lo..hi], parse) != []
  {
    hide Rows;
    var b := a + |line| + 1;
    forall k | a <= k < b - 1 ensures file[k] != LF { assert file[a..b][k - a] == line[k - a]; }
    assert b <= hi;
    assert file[b - 1] == LF by { assert file[a..b][|line|] == LF; }
    RowsNextLine(file, a, a, line, parse);
    assert file[a..a] == [];
    RowsOfPartial([], parse);
    RowsSpan(file, lo, a, hi, parse);
    RowsSpan(file, a, b, hi, parse);
  }

  /** A complete line of `file` at `a` that parses to a row. */
  ghost predicate IsRowLine<Row>(file: seq<Byte>, a: nat, line: seq<Byte>, parse: seq<Byte> -> Option<Row>) {
    && Boundary(file, a) && LF !in line && a + |line| + 1 <= |file|
    && file[a..a + |line| + 1] == line + [LF] && parse(line).Some?
  }

  /** Of a row that has been handled the batch is committed. */
  lemma HandledRow<Row>(s: State, id: nat, a: nat, line: seq<Byte>, parse: seq<Byte> -> Option<Row>)
    requires SkipsEmpty(s, parse) && id < |s.files| && Handled(s.flushed, s.skipped, id, a)
    requires IsRowLine(s.files[id], a, line, parse)
    ensures Count(s.flushed, id, a) >= 1
  {
    hide Rows;
    if Count(s.flushed, id, a) == 0 {
      var r := Holder(s.skipped, id, a);
      assert Empty(s.files, r, parse);
      LineInRange(s.files[id], r.lo, r.hi, a, line, parse);
      assert false;
    }
  }

  /** No row before the saved position is uncounted, whatever happened before. */
  lemma NoLineLost<Row>(steps: seq<Step>, a: nat, line: seq<Byte>, parse: seq<Byte> -> Option<Row>)
    requires Valid(INITIAL, steps, parse)
    requires var s := Run(INITIAL, steps);
             && s.saved.Some? && s.saved.value.file < |s.files| && a < s.saved.value.hi
             && IsRowLine(s.files[s.saved.value.file], a, line, parse)
    ensures var s := Run(INITIAL, steps); Count(s.flushed, s.saved.value.file, a) >= 1
  {
    hide Rows, Run;
    RunKeeps(steps, parse);
    RunSkipsEmpty(steps, parse);
    var s := Run(INITIAL, steps);
    var id := s.saved.value.file;
    HandledRow(s, id, a, line, parse);
  }

  lemma {:induction false} Holder(ranges: seq<Range>, file: nat, x: nat) returns (r: Range)
    requires Count(ranges, file, x) >= 1
    ensures r in ranges && r.file == file && r.lo <= x < r.hi
    decreases |ranges|
  {
    r := ranges[|ranges| - 1];
    if !(r.file == file && r.lo <= x < r.hi) { r := Holder(ranges[..|ranges| - 1], file, x); }
  }

  /** A line is counted at most once, plus once for every crash that made its batch replayable. */
  lemma AtMostOneReplay<Row>(steps: seq<Step>, file: nat, x: nat, parse: seq<Byte> -> Option<Row>)
    requires Valid(INITIAL, steps, parse)
    ensures var s := Run(INITIAL, steps); Count(s.flushed, file, x) <= 1 + Count(s.replayable, file, x)
  {
    RunKeeps(steps, parse);
  }

  /** The crashes of a run that fall between a flush and its save. */
  function GapCrashes(steps: seq<Step>): nat {
    if steps == [] then 0
    else
      var init := steps[..|steps| - 1];
      GapCrashes(init) + if steps[|steps| - 1].Crash? && Run(INITIAL, init).worker.Flushing? then 1 else 0
  }

  /** The batch in the gap is the one flushed last, and only such batches become replayable. */
  ghost predicate LastBatches(s: State) {
    && (s.worker.Flushing? ==>
          s.flushed != [] && s.flushed[|s.flushed| - 1] == Range(s.worker.file, s.worker.lo, s.worker.hi))
    && (forall r :: r in s.replayable ==> r in s.flushed)
  }

  lemma LastBatchesKept(s: State, step: Step)
    requires LastBatches(s)
    ensures LastBatches(Apply(s, step))
  {
  }

  lemma {:induction false} ReplayableAreLastBatches(steps: seq<Step>)
    ensures LastBatches(Run(INITIAL, steps))
    ensures |Run(INITIAL, steps).replayable| == GapCrashes(steps)
    decreases |steps|
  {
    if steps != [] {
      ReplayableAreLastBatches(steps[..|steps| - 1]);
      LastBatchesKept(Run(INITIAL, steps[..|steps| - 1]), steps[|steps| - 1]);
    }
  }

  /** Without a crash between a flush and its save, no line is counted twice. */
  lemma OnceWithoutGapCrash<Row>(steps: seq<Step>, file: nat, x: nat, parse: seq<Byte> -> Option<Row>)
    requires Valid(INITIAL, steps, parse) && GapCrashes(steps) == 0
    ensures Count(Run(INITIAL, steps).flushed, file, x) <= 1
  {
    AtMostOneReplay(steps, file, x, parse);
    ReplayableAreLastBatches(steps);
  }

  // ---- Putting steps together -----------------------------------------------------

  lemma RunThen<Row>(s: State, steps: seq<Step>, step: Step, parse: seq<Byte> -> Option<Row>)
    ensures Run(s, steps + [step]) == Apply(Run(s, steps), step)
    ensures Valid(s, steps + [step], parse) <==> Valid(s, steps, parse) && Enabled(Run(s, steps), step, parse)
  {
    assert (steps + [step])[..|steps|] == steps;
  }

  lemma RunNone<Row>(parse: seq<Byte> -> Option<Row>)
    ensures Run(INITIAL, []) == INITIAL && Valid(INITIAL, [], parse)
  {
  }

  // ---- When a crash replays ---------------------------------------------------------

  /** From the saved position to the worker there is no row, and the batch in the gap is one. */
  ghost predicate NoRowSkipped<Row>(s: State, parse: seq<Byte> -> Option<Row>) {
    match s.worker
    case Open(file, base) => RowsFromSaved(s, file, base, parse)
    case Flushing(file, lo, hi) =>
      && RowsFromSaved(s, file, lo, parse)
      && lo <= hi <= |s.files[file]| && Boundary(s.files[file], hi)
      && 1 <= |Rows(s.files[file][lo..hi], parse)| <= BATCH_SIZE
    case _ => true
  }

  ghost predicate RowsFromSaved<Row>(s: State, file: nat, base: nat, parse: seq<Byte> -> Option<Row>) {
    && file < |s.files| && Position(s, file) <= base
    && Boundary(s.files[file], Position(s, file)) && Boundary(s.files[file], base)
    && Rows(s.files[file][Position(s, file)..base], parse) == []
  }

  /** The slice from a position to itself has no row. */
  lemma NothingThere<Row>(file: seq<Byte>, p: nat, parse: seq<Byte> -> Option<Row>)
    requires p <= |file|
    ensures Rows(file[p..p], parse) == [] && Boundary(file, 0)
  {
    assert file[p..p] == [];
    RowsOfPartial([], parse);
  }

  lemma AppendSkipsNone<Row>(s: State, file: nat, bytes: seq<Byte>, parse: seq<Byte> -> Option<Row>)
    requires NoRowSkipped(s, parse)
    ensures NoRowSkipped(Apply(s, Append(file, bytes)), parse)
  {
    hide Rows;
    var s' := Apply(s, Append(file, bytes));
    assert forall i :: 0 <= i < |s.files| ==> s.files[i] <= s'.files[i];
    if s.worker.Open? {
      var id := s.worker.file;
      assert s'.files[id][Position(s, id)..s.worker.base] == s.files[id][Position(s, id)..s.worker.base];
    } else if s.worker.Flushing? {
      var id := s.worker.file;
      assert s'.files[id][Position(s, id)..s.worker.lo] == s.files[id][Position(s, id)..s.worker.lo];
      assert s'.files[id][s.worker.lo..s.worker.hi] == s.files[id][s.worker.lo..s.worker.hi];
    }
  }

  lemma OpenSkipsNone<Row>(s: State, step: Step, parse: seq<Byte> -> Option<Row>)
    requires Ordered(s) && SkipsEmpty(s, parse) && (step == Start || step == Reopen) && Enabled(s, step, parse)
    ensures NoRowSkipped(Apply(s, step), parse)
  {
    hide Rows;
    var s' := Apply(s, step);
    if s'.worker.Open? { NothingThere(s'.files[s'.worker.file], s'.worker.base, parse); }
  }

  lemma SkipSkipsNone<Row>(s: State, hi: nat, parse: seq<Byte> -> Option<Row>)
    requires NoRowSkipped(s, parse) && Enabled(s, Skip(hi), parse)
    ensures NoRowSkipped(Apply(s, Skip(hi)), parse)
  {
    hide Rows;
    var id := s.worker.file;
    RowsSpan(s.files[id], Position(s, id), s.worker.base, hi, parse);
  }

  lemma SaveSkipsNone<Row>(s: State, step: Step, parse: seq<Byte> -> Option<Row>)
    requires NoRowSkipped(s, parse) && (step == Save || step == SaveTrailing) && Enabled(s, step, parse)
    ensures NoRowSkipped(Apply(s, step), parse)
  {
    hide Rows;
    var s' := Apply(s, step);
    NothingThere(s.files[s.worker.file], s'.worker.base, parse);
  }

  lemma NoRowSkippedKept<Row>(s: State, step: Step, parse: seq<Byte> -> Option<Row>)
    requires NoRowSkipped(s, parse) && Ordered(s) && SkipsEmpty(s, parse) && Enabled(s, step, parse)
    ensures NoRowSkipped(Apply(s, step), parse)
  {
    match step
    case Append(file, bytes) => AppendSkipsNone(s, file, bytes, parse);
    case Start => OpenSkipsNone(s, step, parse);
    case Reopen => OpenSkipsNone(s, step, parse);
    case Skip(hi) => SkipSkipsNone(s, hi, parse);
    case Save => SaveSkipsNone(s, step, parse);
    case SaveTrailing => SaveSkipsNone(s, step, parse);
    case _ => hide Rows;
  }

  lemma {:induction false} RunSkipsNoRow<Row>(steps: seq<Step>, parse: seq<Byte> -> Option<Row>)
    requires Valid(INITIAL, steps, parse)
    ensures NoRowSkipped(Run(INITIAL, steps), parse)
    decreases |steps|
  {
    if steps != [] {
      var init := steps[..|steps| - 1];
      RunSkipsNoRow(init, parse);
      RunKeeps(init, parse);
      RunSkipsEmpty(init, parse);
      NoRowSkippedKept(Run(INITIAL, init), steps[|steps| - 1], parse);
    }
  }

  /** The oldest file that may be read never becomes an older one, and only such files are counted. */
  lemma StepLow<Row>(s: State, step: Step, file: nat, x: nat, parse: seq<Byte> -> Option<Row>)
    requires Inv(s) && Enabled(s, step, parse) && file < Low(s)
    ensures file < Low(Apply(s, step)) && Count(Apply(s, step).flushed, file, x) == Count(s.flushed, file, x)
  {
    if step.FlushBatch? { CountThen(s.flushed, Range(s.worker.file, s.worker.base, step.hi)); }
    hide Count;
  }

  lemma {:induction false} NeverReadAgain<Row>(s: State, steps: seq<Step>, file: nat, x: nat,
                                               parse: seq<Byte> -> Option<Row>)
    requires Inv(s) && Valid(s, steps, parse) && file < Low(s)
    ensures var t := Run(s, steps); Inv(t) && file < Low(t) && Count(t.flushed, file, x) == Count(s.flushed, file, x)
    decreases |steps|
  {
    hide Inv, Count, Low;
    if steps != [] {
      var init, last := steps[..|steps| - 1], steps[|steps| - 1];
      NeverReadAgain(s, init, file, x, parse);
      StepLow(Run(s, init), last, file, x, parse);
      StepKeeps(Run(s, init), last, parse);
    }
  }

  /** The batch that is committed and not yet saved. */
  function Gap(s: State): Range
    requires s.worker.Flushing?
  {
    Range(s.worker.file, s.worker.lo, s.worker.hi)
  }

  /** A crash, a restart, and the same batch again. */
  function Again(s: State): seq<Step>
    requires s.worker.Flushing?
  {
    [Crash, Start, FlushBatch(s.worker.hi)]
  }

  lemma RunThree<Row>(s: State, a: Step, b: Step, c: Step, parse: seq<Byte> -> Option<Row>)
    ensures Run(s, [a, b, c]) == Apply(Apply(Apply(s, a), b), c)
    ensures Valid(s, [a, b, c], parse) <==>
              Enabled(s, a, parse) && Enabled(Apply(s, a), b, parse) && Enabled(Apply(Apply(s, a), b), c, parse)
  {
    assert [] + [a] == [a] && [a] + [b] == [a, b] && [a, b] + [c] == [a, b, c];
    RunThen(s, [], a, parse);
    RunThen(s, [a], b, parse);
    RunThen(s, [a, b], c, parse);
  }

  /** While the file is at the path, a restart stands at its saved position. */
  lemma RestartStands<Row>(s: State, parse: seq<Byte> -> Option<Row>)
    requires s.worker.Flushing? && s.atPath && s.worker.file == |s.files| - 1
    ensures var t := Apply(Apply(s, Crash), Start);
      && Enabled(s, Crash, parse) && Enabled(Apply(s, Crash), Start, parse)
      && t.worker == Open(s.worker.file, Position(s, s.worker.file))
      && t.files == s.files && t.flushed == s.flushed
  {
  }

  /** From there to the end of the batch are the rows of the batch and no other. */
  lemma SameRows<Row>(s: State, parse: seq<Byte> -> Option<Row>)
    requires NoRowSkipped(s, parse) && s.worker.Flushing?
    ensures var id, hi := s.worker.file, s.worker.hi;
      && id < |s.files| && Position(s, id) <= s.worker.lo < hi <= |s.files[id]| && Boundary(s.files[id], hi)
      && 1 <= |Rows(s.files[id][Position(s, id)..hi], parse)| <= BATCH_SIZE
  {
    hide Rows, Position;
    var id, lo, hi := s.worker.file, s.worker.lo, s.worker.hi;
    RowsSpan(s.files[id], Position(s, id), lo, hi, parse);
    NothingThere(s.files[id], lo, parse);
  }

  /** So it commits that batch once more. */
  lemma ReplayRuns<Row>(s: State, parse: seq<Byte> -> Option<Row>)
    requires NoRowSkipped(s, parse) && s.worker.Flushing? && s.atPath && s.worker.file == |s.files| - 1
    ensures Valid(s, Again(s), parse)
    ensures Run(s, Again(s)).flushed == s.flushed + [Range(s.worker.file, Position(s, s.worker.file), s.worker.hi)]
    ensures Position(s, s.worker.file) <= s.worker.lo < s.worker.hi
  {
    RunThree(s, Crash, Start, FlushBatch(s.worker.hi), parse);
    RestartStands(s, parse);
    SameRows(s, parse);
    hide Rows, Run, Valid, NoRowSkipped, Position, Boundary;
    var t := Apply(Apply(s, Crash), Start);
    assert Reach(t, s.worker.hi, parse);
  }

  /** Some way of going on behind a crash counts the byte at `x` of `file` again. */
  ghost predicate CanReplay<Row>(s: State, file: nat, x: nat, parse: seq<Byte> -> Option<Row>) {
    exists more :: Valid(Apply(s, Crash), more, parse)
      && Count(Run(Apply(s, Crash), more).flushed, file, x) > Count(s.flushed, file, x)
  }

  lemma RunsJoin<Row>(s: State, a: seq<Step>, b: seq<Step>, parse: seq<Byte> -> Option<Row>)
    ensures Run(s, a + b) == Run(Run(s, a), b)
    ensures Valid(s, a + b, parse) <==> Valid(s, a, parse) && Valid(Run(s, a), b, parse)
    decreases |b|
  {
    if b == [] {
      assert a + b == a;
    } else {
      assert (a + b)[..|a + b| - 1] == a + b[..|b| - 1];
      RunsJoin(s, a, b[..|b| - 1], parse);
    }
  }

  /**
   A crash in the gap of any run can count the batch in the gap again exactly while its
   file is the one at the path: then the next restart does, with each of its bytes once
   more, and otherwise nothing ever reads that file again.
   */
  lemma CrashReplaysExactly<Row>(steps: seq<Step>, x: nat, parse: seq<Byte> -> Option<Row>)
    requires Valid(INITIAL, steps, parse) && Run(INITIAL, steps).worker.Flushing?
    requires var r := Gap(Run(INITIAL, steps)); r.lo <= x < r.hi
    ensures var s := Run(INITIAL, steps); var r := Gap(s); var more := steps + Again(s);
      && (CanReplay(s, r.file, x, parse) <==> s.atPath && r.file == |s.files| - 1)
      && (s.atPath && r.file == |s.files| - 1 ==>
            && Valid(INITIAL, more, parse)
            && Count(Run(INITIAL, more).flushed, r.file, x) == Count(s.flushed, r.file, x) + 1)
  {
    hide Inv, Count, Rows, Run, Valid, NoRowSkipped;
    var s := Run(INITIAL, steps);
    var r := Gap(s);
    RunKeeps(steps, parse);
    RunSkipsNoRow(steps, parse);
    if s.atPath && r.file == |s.files| - 1 {
      ReplayRuns(s, parse);
      CountThen(s.flushed, Range(r.file, Position(s, r.file), r.hi));
      RunsJoin(INITIAL, steps, Again(s), parse);
      RunsJoin(s, [Crash], Again(s)[1..], parse);
      assert [Crash] + Again(s)[1..] == Again(s);
      OneStep(s, Crash, parse);
      assert Count(Run(Apply(s, Crash), Again(s)[1..]).flushed, r.file, x) > Count(s.flushed, r.file, x);
    } else {
      StepKeeps(s, Crash, parse);
      GapFileGone(s);
      forall more | Valid(Apply(s, Crash), more, parse)
        ensures Count(Run(Apply(s, Crash), more).flushed, r.file, x) == Count(s.flushed, r.file, x)
      {
        NeverReadAgain(Apply(s, Crash), more, r.file, x, parse);
      }
    }
  }

  lemma OneStep<Row>(s: State, step: Step, parse: seq<Byte> -> Option<Row>)
    ensures Run(s, [step]) == Apply(s, step) && (Valid(s, [step], parse) <==> Enabled(s, step, parse))
  {
    RunThen(s, [], step, parse);
    assert [] + [step] == [step];
  }

  /** Behind a crash, a file that is not at the path is older than any that may be read. */
  lemma GapFileGone(s: State)
    requires Inv(s) && s.worker.Flushing? && !(s.atPath && s.worker.file == |s.files| - 1)
    ensures s.worker.file < Low(Apply(s, Crash)) && Apply(s, Crash).flushed == s.flushed
  {
  }

  const LINE: seq<Byte> := [0x61, LF]

  lemma LineRow<Row>(parse: seq<Byte> -> Option<Row>)
    requires parse([0x61]).Some?
    ensures |Rows(LINE[0..2], parse)| == 1 && Boundary(LINE, 2)
  {
    var line: seq<Byte> := [0x61];
    RowsNextLine(LINE, 0, 0, line, parse);
    assert LINE[0..2] == line + [LF] && LINE[0..0] == [];
    RowsOfPartial([], parse);
  }

  const FIRST_BATCH: seq<Step> := [Create, Append(0, LINE), Start, FlushBatch(2)]

  /** One line, read and flushed. */
  lemma FirstBatch<Row>(parse: seq<Byte> -> Option<Row>)
    requires parse([0x61]).Some?
    ensures Valid(INITIAL, FIRST_BATCH, parse)
    ensures Run(INITIAL, FIRST_BATCH) == State([LINE], true, Flushing(0, 0, 2), None, [Range(0, 0, 2)], [], [])
  {
    hide Rows, Run, Valid;
    LineRow(parse);
    RunNone(parse);
    RunThree(INITIAL, Create, Append(0, LINE), Start, parse);
    var created := Apply(INITIAL, Create);
    assert created.files == [[]] && created.files[0] + LINE == LINE && created.files[0 := LINE] == [LINE];
    assert Boundary(LINE, 0);
    RunThen(INITIAL, [Create, Append(0, LINE), Start], FlushBatch(2), parse);
    assert [Create, Append(0, LINE), Start] + [FlushBatch(2)] == FIRST_BATCH;
  }

  /**
   The comment above `persistTailState` is too strong: a crash right behind a committed
   batch makes the restart commit that batch again.
   */
  lemma CrashReplays<Row>(parse: seq<Byte> -> Option<Row>) returns (steps: seq<Step>)
    requires parse([0x61]).Some?
    ensures Valid(INITIAL, steps, parse) && Count(Run(INITIAL, steps).flushed, 0, 0) == 2
  {
    hide Count, Rows, Run, Valid;
    FirstBatch(parse);
    CrashReplaysExactly(FIRST_BATCH, 0, parse);
    steps := FIRST_BATCH + Again(Run(INITIAL, FIRST_BATCH));
    CountThen([], Range(0, 0, 2));
    CountNone();
    assert [] + [Range(0, 0, 2)] == [Range(0, 0, 2)];
  }

  lemma CountNone()
    ensures Count([], 0, 0) == 0
  {
  }

  // ---- A drain is part of such a run -----------------------------------------------

  /** The steps behind the writes of a drain that ends at the line start `p`. */
  ghost function DrainSteps<Row>(writes: seq<Write<Row>>, p: nat): seq<Step> {
    BatchSteps(writes) + [Skip(p)]
  }

  ghost function BatchSteps<Row>(writes: seq<Write<Row>>): seq<Step> {
    if |writes| < 2 || !writes[|writes| - 1].Persist? then []
    else BatchSteps(writes[..|writes| - 2]) + [FlushBatch(writes[|writes| - 1].offset), Save]
  }

  /** The worker stands at `base` of `file`, which the drain saw at least in part. */
  ghost predicate Draining(s: State, id: nat, file: seq<Byte>, base: nat) {
    s.worker == Open(id, base) && id < |s.files| && file <= s.files[id]
  }

  /** The reader may know the file as `id`; to the machine it is `m`. */
  lemma {:induction false} BatchesRun<Row>(s: State, writes: seq<Write<Row>>, file: seq<Byte>, id: nat, m: nat,
                                           from: nat, parse: seq<Byte> -> Option<Row>)
    requires Draining(s, m, file, from) && Boundary(file, from) && Committed(writes, file, id, from, parse)
    ensures Valid(s, BatchSteps(writes), parse)
    ensures Draining(Run(s, BatchSteps(writes)), m, file, LastSaved(writes, from))
    ensures Run(s, BatchSteps(writes)).saved ==
            if writes == [] then s.saved else Some(Range(m, 0, LastSaved(writes, from)))
    decreases |writes|
  {
    hide Rows, Draining, Boundary;
    if writes != [] {
      var init, to := writes[..|writes| - 2], writes[|writes| - 1].offset;
      BatchesRun(s, init, file, id, m, from, parse);
      CommittedRows(init, file, id, from, parse);
      BatchRuns(Run(s, BatchSteps(init)), file, m, LastSaved(init, from), to, parse);
      RunThen(s, BatchSteps(init), FlushBatch(to), parse);
      RunThen(s, BatchSteps(init) + [FlushBatch(to)], Save, parse);
      assert BatchSteps(writes) == BatchSteps(init) + [FlushBatch(to)] + [Save];
    }
  }

  /** One batch and its save. */
  lemma BatchRuns<Row>(t: State, file: seq<Byte>, id: nat, base: nat, to: nat, parse: seq<Byte> -> Option<Row>)
    requires Draining(t, id, file, base) && base <= to <= |file| && Boundary(file, to)
    requires 1 <= |Rows(file[base..to], parse)| <= BATCH_SIZE
    ensures Enabled(t, FlushBatch(to), parse)
    ensures var u := Apply(Apply(t, FlushBatch(to)), Save);
            && Apply(t, FlushBatch(to)).worker.Flushing?
            && Draining(u, id, file, to)
            && u.saved == Some(Range(id, 0, to))
  {
    hide Rows;
    assert t.files[id][base..to] == file[base..to];
  }

  /** Each drain of the reader is a run of the machine, to the position the drain ends at. */
  lemma DrainRuns<Row>(s: State, writes: seq<Write<Row>>, file: seq<Byte>, id: nat, m: nat, from: nat, p: nat,
                       parse: seq<Byte> -> Option<Row>)
    requires Draining(s, m, file, from) && Accounted(writes, [], file, id, from, p, parse)
    ensures Valid(s, DrainSteps(writes, p), parse)
    ensures Draining(Run(s, DrainSteps(writes, p)), m, file, p)
    ensures Run(s, DrainSteps(writes, p)).saved ==
            if writes == [] then s.saved else Some(Range(m, 0, LastSaved(writes, from)))
  {
    hide Rows, Committed, LastSaved;
    BatchesRun(s, writes, file, id, m, from, parse);
    var t := Run(s, BatchSteps(writes));
    assert t.files[m][LastSaved(writes, from)..p] == file[LastSaved(writes, from)..p];
    RunThen(s, BatchSteps(writes), Skip(p), parse);
  }

  // ---- So are polls and restarts ---------------------------------------------------

  /** The reader's fields and the position in the database are those of the machine. */
  ghost predicate Tracks<Row>(t: Tailer<Row>, s: State)
    reads t
  {
    && |t.partial| <= t.offset
    && SavedState(t.writes) == (if s.saved.Some? then Some((s.saved.value.file, s.saved.value.hi)) else None)
    && (t.openFile.None? ==> s.worker.Idle?)
    && (t.openFile.Some? ==>
          s.worker == Open(t.openFile.value, t.Start()) && s.worker.file < |s.files| && t.Reads(s.files[s.worker.file]))
  }

  /** What others may do while a poll goes on. */
  ghost predicate World(steps: seq<Step>) {
    forall i :: 0 <= i < |steps| ==> steps[i].Append? || steps[i].Unlink? || steps[i].Create?
  }

  lemma {:induction false} WorldRuns<Row>(s: State, steps: seq<Step>, parse: seq<Byte> -> Option<Row>)
    requires World(steps) && Valid(s, steps, parse)
    ensures var t := Run(s, steps);
      && t.worker == s.worker && t.saved == s.saved && |s.files| <= |t.files|
      && forall i :: 0 <= i < |s.files| ==> s.files[i] <= t.files[i]
    decreases |steps|
  {
    if steps != [] { WorldRuns(s, steps[..|steps| - 1], parse); }
  }

  /** What others do depends on the files alone. */
  lemma {:induction false} WorldSame<Row>(s: State, u: State, steps: seq<Step>, parse: seq<Byte> -> Option<Row>)
    requires World(steps) && Valid(s, steps, parse) && u.files == s.files && u.atPath == s.atPath
    ensures Valid(u, steps, parse)
    ensures Run(u, steps).files == Run(s, steps).files && Run(u, steps).atPath == Run(s, steps).atPath
    decreases |steps|
  {
    if steps != [] { WorldSame(s, u, steps[..|steps| - 1], parse); }
  }

  /** What a poll has seen of a file: at least what was read before, at most what is there. */
  ghost predicate Seen(contents: Option<seq<Byte>>, read: nat, file: seq<Byte>) {
    contents.Some? ==> read <= |contents.value| && contents.value <= file
  }

  lemma SavedLast<Row>(writes: seq<Write<Row>>, id: nat, offset: nat)
    ensures SavedState(writes + [Persist(id, offset)]) == Some((id, offset))
  {
  }

  /** The steps of the drain of the open file, if there is one and it can be read. */
  ghost function FirstSteps<Row>(s: State, contents: Option<seq<Byte>>, first: seq<Write<Row>>, p: nat): seq<Step> {
    if s.worker.Open? && contents.Some? then DrainSteps(first, p) else []
  }

  /** The steps behind that: another file is opened and drained, and the position is saved. */
  ghost function LaterSteps<Row>(s: State, path: Option<nat>, reopened: Option<seq<Byte>>, second: seq<Write<Row>>,
                                 p: nat): seq<Step> {
    (if path.None? || (s.worker.Open? && s.worker.file == path.value) then []
     else [Reopen] + if reopened.Some? then DrainSteps(second, p) else [])
    + if path.Some? || s.worker.Open? then [SaveTrailing] else []
  }

  /** A poll, with what others did between its drain and its look at the path. */
  ghost function PollSteps<Row>(s: State, contents: Option<seq<Byte>>, path: Option<nat>, reopened: Option<seq<Byte>>,
                                first: seq<Write<Row>>, p: nat, world: seq<Step>, second: seq<Write<Row>>,
                                q: nat): seq<Step> {
    FirstSteps(s, contents, first, p) + world + LaterSteps(s, path, reopened, second, q)
  }

  /** The path's file is the newest one, if there is a file at the path. */
  ghost predicate AtPath(s: State, path: Option<nat>) {
    path == if s.atPath && s.files != [] then Some(|s.files| - 1) else None
  }

  /** The first drain, as steps; the worker ends at `p`. */
  lemma FirstRuns<Row>(s: State, contents: Option<seq<Byte>>, first: seq<Write<Row>>, p: nat,
                       parse: seq<Byte> -> Option<Row>)
    requires s.worker.Open? ==> s.worker.file < |s.files| && Seen(contents, s.worker.base, s.files[s.worker.file])
    requires s.worker.Open? && contents.Some? ==>
               Accounted(first, [], contents.value, s.worker.file, s.worker.base, p, parse)
    ensures var steps := FirstSteps(s, contents, first, p); var t := Run(s, steps);
      && Valid(s, steps, parse) && t.files == s.files && t.atPath == s.atPath
      && (s.worker.Open? && contents.Some? ==> t.worker == Open(s.worker.file, p))
      && (!(s.worker.Open? && contents.Some?) ==> t == s)
  {
    hide Rows, Accounted, DrainSteps;
    RunNothing(s, parse);
    if s.worker.Open? && contents.Some? {
      DrainRuns(s, first, contents.value, s.worker.file, s.worker.file, s.worker.base, p, parse);
      DrainFiles(s, first, p);
    }
  }

  lemma {:induction false} BatchFiles<Row>(s: State, writes: seq<Write<Row>>)
    ensures Run(s, BatchSteps(writes)).files == s.files && Run(s, BatchSteps(writes)).atPath == s.atPath
    decreases |writes|
  {
    if !(|writes| < 2 || !writes[|writes| - 1].Persist?) {
      var init, hi := BatchSteps(writes[..|writes| - 2]), writes[|writes| - 1].offset;
      BatchFiles(s, writes[..|writes| - 2]);
      TwoMore(s, init, FlushBatch(hi), Save);
      hide Run;
    }
  }

  lemma TwoMore(s: State, steps: seq<Step>, a: Step, b: Step)
    ensures Run(s, steps + [a, b]) == Apply(Apply(Run(s, steps), a), b)
  {
    hide Apply;
    assert (steps + [a, b])[..|steps| + 1] == steps + [a];
    assert (steps + [a])[..|steps|] == steps;
  }

  lemma DrainFiles<Row>(s: State, writes: seq<Write<Row>>, p: nat)
    ensures Run(s, DrainSteps(writes, p)).files == s.files && Run(s, DrainSteps(writes, p)).atPath == s.atPath
  {
    BatchFiles(s, writes);
    assert (BatchSteps(writes) + [Skip(p)])[..|BatchSteps(writes)|] == BatchSteps(writes);
  }

  /** The rest of the poll, as steps: the worker ends at `q` of the path's file, and its position is saved. */
  lemma LaterRuns<Row>(s: State, path: Option<nat>, reopened: Option<seq<Byte>>, second: seq<Write<Row>>, q: nat,
                       parse: seq<Byte> -> Option<Row>)
    requires (s.worker.Open? || s.worker.Idle?) && AtPath(s, path)
    requires var rolled := path.Some? && !(s.worker.Open? && s.worker.file == path.value);
      && (rolled && reopened.Some? ==>
            && reopened.value <= s.files[path.value]
            && Accounted(second, [], reopened.value, path.value, 0, q, parse))
      && (rolled && reopened.None? ==> q == 0)
      && (!rolled && s.worker.Open? ==> q == s.worker.base)
    ensures var steps := LaterSteps(s, path, reopened, second, q); var t := Run(s, steps);
      var id := if path.Some? then path else if s.worker.Open? then Some(s.worker.file) else None;
      && Valid(s, steps, parse) && t.files == s.files
      && (id.None? ==> t == s)
      && (id.Some? ==> t.worker == Open(id.value, q) && t.saved == Some(Range(id.value, 0, q)))
  {
    hide Rows, Accounted, DrainSteps, Run, Valid;
    var rolled := path.Some? && !(s.worker.Open? && s.worker.file == path.value);
    RunNothing(s, parse);
    if rolled {
      OneStep(s, Reopen, parse);
      var a := Apply(s, Reopen);
      if reopened.Some? {
        DrainRuns(a, second, reopened.value, path.value, path.value, 0, q, parse);
        DrainFiles(a, second, q);
        RunsJoin(s, [Reopen], DrainSteps(second, q), parse);
        RunThen(s, [Reopen] + DrainSteps(second, q), SaveTrailing, parse);
      } else {
        RunThen(s, [Reopen], SaveTrailing, parse);
        assert [Reopen] + [] == [Reopen];
      }
    } else if s.worker.Open? {
      OneStep(s, SaveTrailing, parse);
      assert [] + [SaveTrailing] == [SaveTrailing];
    } else {
      var none: seq<Step> := [];
      assert LaterSteps(s, path, reopened, second, q) == none + none == none;
    }
  }

  lemma RunNothing<Row>(s: State, parse: seq<Byte> -> Option<Row>)
    ensures Run(s, []) == s && Valid(s, [], parse)
  {
  }

  lemma ReadsPart<Row>(t: Tailer<Row>, part: seq<Byte>, file: seq<Byte>)
    requires part <= file && t.offset <= |part|
    ensures t.Reads(part) <==> t.Reads(file)
  {
    if |t.partial| <= t.offset {
      assert part[t.offset - |t.partial|..t.offset] == file[t.offset - |t.partial|..t.offset];
    }
  }

  /**
   Each poll of the reader is a run of the machine: the steps of its drains, what others
   did in between, a reopening exactly when the path has another file, and a save. The
   file that is open afterwards has been read to where its reads ended.
   */
  method PollRuns<Row>(t: Tailer<Row>, ghost s: State, contents: Option<seq<Byte>>, gives: nat -> nat,
                       path: Option<nat>, reopened: Option<seq<Byte>>, later: nat -> nat, ghost world: seq<Step>)
      returns (ghost first: seq<Write<Row>>, ghost p: nat, ghost second: seq<Write<Row>>)
    requires Tracks(t, s) && (t.openFile.Some? ==> Seen(contents, t.offset, s.files[t.openFile.value]))
    requires World(world) && Valid(s, world, t.parse) && AtPath(Run(s, world), path)
    requires path.Some? ==> Seen(reopened, 0, Run(s, world).files[path.value])
    modifies t
    ensures t.writes == old(t.writes) + first + second +
                        if t.openFile.Some? then [Persist(t.openFile.value, t.Start())] else []
    ensures t.openFile == if path.Some? then path else old(t.openFile)
    ensures var steps := PollSteps(s, contents, path, reopened, first, p, world, second, t.Start());
      && Valid(s, steps, t.parse) && Tracks(t, Run(s, steps)) && Run(s, steps).files == Run(s, world).files
      && (t.openFile.Some? ==> Run(s, steps).saved == Some(Range(t.openFile.value, 0, t.Start())))
    ensures old(t.openFile).Some? && contents.Some? ==>
              var end := old(ReadsTo(gives, t.offset, |contents.value|));
              && p <= end && LF !in contents.value[p..end]
              && Accounted(first, [], contents.value, old(t.openFile.value), old(t.Start()), p, t.parse)
    ensures t.openFile.Some? && t.openFile == old(t.openFile) && contents.Some? ==>
              t.offset == old(ReadsTo(gives, t.offset, |contents.value|))
    ensures t.openFile != old(t.openFile) && reopened.Some? ==> t.offset == ReadsTo(later, 0, |reopened.value|)
  {
    hide Accounted, Rows, Tail, Flushed, Run, Valid, FirstSteps, LaterSteps, ReadsTo;
    ghost var from := t.Start();
    WorldRuns(s, world, t.parse);
    if t.openFile.Some? && contents.Some? { ReadsPart(t, contents.value, s.files[t.openFile.value]); }
    first, second := t.Poll(contents, gives, path, reopened, later);
    p := from;
    if s.worker.Open? && contents.Some? {
      var end := old(t.ReadEnd(gives, |contents.value|));
      p := end - |Tail(contents.value[from..end])|;
    }
    PolledRuns(s, contents, path, reopened, first, p, world, second, t.Start(), t.parse);
    if t.openFile.Some? {
      SavedLast(old(t.writes) + first + second, t.openFile.value, t.Start());
      var file := Run(s, world).files[t.openFile.value];
      if t.openFile != old(t.openFile) {
        if reopened.Some? { ReadsPart(t, reopened.value, file); } else { assert file[0..0] == []; }
      } else if contents.Some? {
        ReadsPart(t, contents.value, file);
      } else {
        ReadsPart(t, s.files[t.openFile.value], file);
      }
      assert t.Reads(file);
    } else {
      assert t.writes == old(t.writes);
    }
  }

  /** The three parts of a poll, joined. */
  lemma PolledRuns<Row>(s: State, contents: Option<seq<Byte>>, path: Option<nat>, reopened: Option<seq<Byte>>,
                        first: seq<Write<Row>>, p: nat, world: seq<Step>, second: seq<Write<Row>>, q: nat,
                        parse: seq<Byte> -> Option<Row>)
    requires s.worker.Open? || s.worker.Idle?
    requires s.worker.Open? ==> s.worker.file < |s.files| && Seen(contents, s.worker.base, s.files[s.worker.file])
    requires s.worker.Open? && contents.Some? ==>
               Accounted(first, [], contents.value, s.worker.file, s.worker.base, p, parse)
    requires s.worker.Open? && contents.None? ==> p == s.worker.base
    requires World(world) && Valid(s, world, parse) && AtPath(Run(s, world), path)
    requires var rolled := path.Some? && !(s.worker.Open? && s.worker.file == path.value);
      && (rolled && reopened.Some? ==>
            && reopened.value <= Run(s, world).files[path.value]
            && Accounted(second, [], reopened.value, path.value, 0, q, parse))
      && (rolled && reopened.None? ==> q == 0)
      && (!rolled && s.worker.Open? ==> q == p)
    ensures var steps := PollSteps(s, contents, path, reopened, first, p, world, second, q); var t := Run(s, steps);
      var id := if path.Some? then path else if s.worker.Open? then Some(s.worker.file) else None;
      && Valid(s, steps, parse) && t.files == Run(s, world).files
      && (id.None? ==> t.worker == s.worker && t.saved == s.saved)
      && (id.Some? ==> t.worker == Open(id.value, q) && t.saved == Some(Range(id.value, 0, q)))
  {
    hide Rows, Accounted, Run, Valid, FirstSteps, LaterSteps;
    var a := FirstSteps(s, contents, first, p);
    FirstRuns(s, contents, first, p, parse);
    var u := Run(s, a);
    WorldSame(s, u, world, parse);
    WorldRuns(u, world, parse);
    var v := Run(u, world);
    SameLater(s, v, path, reopened, second, q);
    LaterRuns(v, path, reopened, second, q, parse);
    RunsJoin(s, a, world, parse);
    RunsJoin(s, a + world, LaterSteps(s, path, reopened, second, q), parse);
  }

  lemma SameLater<Row>(s: State, v: State, path: Option<nat>, reopened: Option<seq<Byte>>, second: seq<Write<Row>>,
                       q: nat)
    requires v.worker.Open? <==> s.worker.Open?
    requires v.worker.Open? ==> v.worker.file == s.worker.file
    ensures LaterSteps(v, path, reopened, second, q) == LaterSteps(s, path, reopened, second, q)
  {
  }

  lemma {:induction false} FlushedGrows(s: State, steps: seq<Step>, file: nat, x: nat)
    ensures Count(Run(s, steps).flushed, file, x) >= Count(s.flushed, file, x)
    decreases |steps|
  {
    if steps != [] {
      var t, step := Run(s, steps[..|steps| - 1]), steps[|steps| - 1];
      FlushedGrows(s, steps[..|steps| - 1], file, x);
      if step.FlushBatch? && t.worker.Open? { CountThen(t.flushed, Range(t.worker.file, t.worker.base, step.hi)); }
    }
  }

  /** A complete line lies before the unterminated tail. */
  lemma LineBeforeTail<Row>(seen: seq<Byte>, base: nat, a: nat, line: seq<Byte>, parse: seq<Byte> -> Option<Row>)
    requires base <= |seen| && LF !in seen[base..] && IsRowLine(seen, a, line, parse)
    ensures a + |line| < base
  {
    assert seen[a..a + |line| + 1][|line|] == LF;
    assert forall k :: base <= k < |seen| ==> seen[k] == seen[base..][k - base];
  }

  lemma RowLineStays<Row>(seen: seq<Byte>, file: seq<Byte>, a: nat, line: seq<Byte>, parse: seq<Byte> -> Option<Row>)
    requires seen <= file && IsRowLine(seen, a, line, parse)
    ensures IsRowLine(file, a, line, parse)
  {
    assert file[a..a + |line| + 1] == seen[a..a + |line| + 1];
  }

  /** When the worker stands where nothing but an unterminated tail follows, no row before that is uncounted. */
  lemma CaughtUp<Row>(steps: seq<Step>, seen: seq<Byte>, a: nat, line: seq<Byte>, parse: seq<Byte> -> Option<Row>)
    requires Valid(INITIAL, steps, parse)
    requires var s := Run(INITIAL, steps);
      && s.worker.Open? && s.worker.file < |s.files| && seen <= s.files[s.worker.file]
      && s.worker.base <= |seen| && LF !in seen[s.worker.base..]
    requires IsRowLine(seen, a, line, parse)
    ensures var s := Run(INITIAL, steps); Count(s.flushed, s.worker.file, a) >= 1
  {
    hide Rows, Run, Valid, IsRowLine, Count;
    var s := Run(INITIAL, steps);
    LineBeforeTail(seen, s.worker.base, a, line, parse);
    RowLineStays(seen, s.files[s.worker.file], a, line, parse);
    RunKeeps(steps, parse);
    RunSkipsEmpty(steps, parse);
    HandledRow(s, s.worker.file, a, line, parse);
  }

  /**
   A poll counts every row there is. If no read of a drain fails or returns nothing, each
   row of the complete lines of what that drain saw is counted: of the file that was open,
   also when another one has taken its place, and of the one that is opened.
   */
  method PollCounts<Row>(t: Tailer<Row>, ghost history: seq<Step>, contents: Option<seq<Byte>>, gives: nat -> nat,
                         path: Option<nat>, reopened: Option<seq<Byte>>, later: nat -> nat, ghost world: seq<Step>)
      returns (ghost steps: seq<Step>)
    requires Valid(INITIAL, history, t.parse)
    requires var s := Run(INITIAL, history);
      && Tracks(t, s) && (t.openFile.Some? ==> Seen(contents, t.offset, s.files[t.openFile.value]))
      && World(world) && Valid(s, world, t.parse) && AtPath(Run(s, world), path)
      && (path.Some? ==> Seen(reopened, 0, Run(s, world).files[path.value]))
    modifies t
    ensures t.openFile == if path.Some? then path else old(t.openFile)
    ensures Valid(INITIAL, history + steps, t.parse) && Tracks(t, Run(INITIAL, history + steps))
    ensures old(t.openFile).Some? && contents.Some? && AllDeliver(gives, |contents.value|) ==>
              forall a: nat, line :: IsRowLine(contents.value, a, line, t.parse) ==>
                Count(Run(INITIAL, history + steps).flushed, old(t.openFile).value, a) >= 1
    ensures t.openFile != old(t.openFile) && reopened.Some? && AllDeliver(later, |reopened.value|) ==>
              forall a: nat, line :: IsRowLine(reopened.value, a, line, t.parse) ==>
                Count(Run(INITIAL, history + steps).flushed, t.openFile.value, a) >= 1
  {
    hide Run, Valid, Accounted, Rows, Tail, Flushed, FirstSteps, LaterSteps, Count, IsRowLine;
    ghost var s, first, p, second := Run(INITIAL, history), [], 0, [];
    WorldRuns(s, world, t.parse);
    first, p, second := PollRuns(t, s, contents, gives, path, reopened, later, world);
    steps := PollSteps(s, contents, path, reopened, first, p, world, second, t.Start());
    RunsJoin(INITIAL, history, steps, t.parse);
    if old(t.openFile).Some? && contents.Some? && AllDeliver(gives, |contents.value|) {
      ReadsAll(gives, old(t.offset), |contents.value|);
      OpenFileCounted(history, contents.value, path, reopened, first, p, world, second, t.Start(), t.parse);
    }
    if t.openFile != old(t.openFile) && reopened.Some? && AllDeliver(later, |reopened.value|) {
      ReadsAll(later, 0, |reopened.value|);
      forall a: nat, line | IsRowLine(reopened.value, a, line, t.parse)
        ensures Count(Run(INITIAL, history + steps).flushed, t.openFile.value, a) >= 1
      {
        CaughtUp(history + steps, reopened.value, a, line, t.parse);
      }
    }
  }

  /** The rows of the file that was open when a poll began are counted by its first drain. */
  lemma OpenFileCounted<Row>(history: seq<Step>, contents: seq<Byte>, path: Option<nat>, reopened: Option<seq<Byte>>,
                             first: seq<Write<Row>>, p: nat, world: seq<Step>, second: seq<Write<Row>>, q: nat,
                             parse: seq<Byte> -> Option<Row>)
    requires var s := Run(INITIAL, history);
      && s.worker.Open? && s.worker.file < |s.files| && Seen(Some(contents), s.worker.base, s.files[s.worker.file])
      && Accounted(first, [], contents, s.worker.file, s.worker.base, p, parse)
    requires Valid(INITIAL, history, parse) && p <= |contents| && LF !in contents[p..]
    ensures var s := Run(INITIAL, history);
      var steps := PollSteps(s, Some(contents), path, reopened, first, p, world, second, q);
      forall a: nat, line :: IsRowLine(contents, a, line, parse) ==>
        Count(Run(INITIAL, history + steps).flushed, s.worker.file, a) >= 1
  {
    hide Run, Valid, Accounted, Rows, FirstSteps, LaterSteps, Count, IsRowLine;
    var s := Run(INITIAL, history);
    var a, rest := FirstSteps(s, Some(contents), first, p), world + LaterSteps(s, path, reopened, second, q);
    FirstRuns(s, Some(contents), first, p, parse);
    RunsJoin(INITIAL, history, a, parse);
    RunsJoin(INITIAL, history + a, rest, parse);
    assert history + (a + world + LaterSteps(s, path, reopened, second, q)) == history + a + rest;
    forall x: nat, line | IsRowLine(contents, x, line, parse)
      ensures Count(Run(INITIAL, history + a + rest).flushed, s.worker.file, x) >= 1
    {
      CaughtUp(history + a, contents, x, line, parse);
      FlushedGrows(Run(INITIAL, history + a), rest, s.worker.file, x);
    }
  }

  /** A start of the reader is the machine's start. */
  method InitRuns<Row>(t: Tailer<Row>, ghost s: State, path: Option<nat>)
    requires t.openFile.None? && t.offset == 0 && t.partial == [] && s.worker.Down? && AtPath(s, path)
    requires SavedState(t.writes) == if s.saved.Some? then Some((s.saved.value.file, s.saved.value.hi)) else None
    requires SkipsEmpty(s, t.parse)
    modifies t
    ensures Enabled(s, Start, t.parse) && Tracks(t, Apply(s, Start)) && t.writes == old(t.writes)
  {
    hide Rows;
    t.Init(path);
  }

  // ---- A file that shrinks in place ------------------------------------------------

  /** The open file is rolled away, and another one with these contents is at the path and open. */
  function Replaced(s: State, contents: seq<Byte>): seq<Step> {
    [Unlink, Create, Append(|s.files|, contents), Reopen]
  }

  lemma ReplacedRuns<Row>(s: State, contents: seq<Byte>, parse: seq<Byte> -> Option<Row>)
    requires s.worker.Open? && s.worker.file < |s.files| && s.atPath
    ensures var t := Run(s, Replaced(s, contents));
      && Valid(s, Replaced(s, contents), parse)
      && t.worker == Open(|s.files|, 0) && t.files == s.files + [contents]
      && t.flushed == s.flushed && t.saved == s.saved
  {
    var first := [Unlink, Create, Append(|s.files|, contents)];
    RunThree(s, Unlink, Create, Append(|s.files|, contents), parse);
    RunThen(s, first, Reopen, parse);
    assert first + [Reopen] == Replaced(s, contents);
    hide Run, Valid;
    assert [] + contents == contents;
    assert (s.files + [[]])[|s.files| := contents] == s.files + [contents];
  }

  /**
   A drain that finds the file shorter than what it has read of it is a run of the machine
   as well: one in which the file was rolled away and another one, with what is there now,
   was created at the path. So whatever holds of all runs holds with files that shrink in
   place, if each time they are found shorter, and the new contents count as a new file.
   */
  method ShrinkRuns<Row>(t: Tailer<Row>, ghost s: State, contents: seq<Byte>, gives: nat -> nat)
      returns (ghost added: seq<Write<Row>>)
    requires Tracks(t, s) && t.openFile.Some? && s.atPath && |contents| < t.offset
    modifies t
    ensures t.openFile == old(t.openFile) && t.writes == old(t.writes) + added
    ensures var steps := Replaced(s, contents) + DrainSteps(added, t.Start()); var u := Run(s, steps);
      && Valid(s, steps, t.parse)
      && u.worker == Open(|s.files|, t.Start()) && t.Reads(u.files[|s.files|])
      && u.saved == if added == [] then s.saved else Some(Range(|s.files|, 0, LastSaved(added, 0)))
  {
    hide Accounted, Rows, Run, Valid;
    ReplacedRuns(s, contents, t.parse);
    added := t.Drain(Some(contents), gives);
    ghost var a := Run(s, Replaced(s, contents));
    assert Draining(a, |s.files|, contents, 0);
    DrainRuns(a, added, contents, t.openFile.value, |s.files|, 0, t.Start(), t.parse);
    DrainFiles(a, added, t.Start());
    RunsJoin(s, Replaced(s, contents), DrainSteps(added, t.Start()), t.parse);
  }
}
