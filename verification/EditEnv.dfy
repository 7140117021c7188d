/**
 Concurrent edits of environment variables (`editEnv`, routers/services.ts).

 An edit reads the whole text, edits it, and writes it back if the text is still the one it
 read; if not it starts over, at most 20 times. Any number of edits run at once, between
 whole-file writes and deletions. `history` is the writes that happened, as if each were
 one atomic operation; that replaying it gives the stored texts is what makes edits
 linearizable.
 */
module EditEnv {
  import opened Wrappers
  import EnvFile

  const ATTEMPTS := 20

  datatype Change = SetVar(name: string, value: string) | UnsetVar(name: string)

  function Edited(c: Change, raw: string): EnvFile.Edit<string> {
    match c
    case SetVar(name, value) => EnvFile.Set(raw, name, value)
    case UnsetVar(name) =>
      match EnvFile.UnsetEnvVar(raw, name)
      case Done(r) => EnvFile.Done(r.envVars)
      case Failed(error) => EnvFile.Failed(error)
  }

  /** An atomic write: the whole text (or a new service), a deletion, or an edit of the text there is. */
  datatype Write = Whole(id: int, text: string) | Gone(id: int) | Edit(id: int, change: Change)

  type Texts = map<int, string>

  function Effect(texts: Texts, w: Write): Texts {
    match w
    case Whole(id, text) => texts[id := text]
    case Gone(id) => texts - {id}
    case Edit(id, change) =>
      if id in texts && Edited(change, texts[id]).Done? then texts[id := Edited(change, texts[id]).value] else texts
  }

  function Replay(history: seq<Write>): Texts {
    if history == [] then map[] else Effect(Replay(history[..|history| - 1]), history[|history| - 1])
  }

  // ---- The protocol ----------------------------------------------------------------

  datatype Failure = NotFound | BadRequest | Conflict

  /** Where an edit is: about to read, about to write what it made of the text it read, or done. */
  datatype Phase =
    | Reading
    | Writing(read: string, result: string, readAt: nat)
    | Succeeded(at: nat)
    | Failed(why: Failure)

  /** `lost` is, for each attempt that failed, a write that had come between. */
  datatype Editor = Editor(id: int, change: Change, attempt: nat, phase: Phase, since: nat, lost: seq<int>)

  datatype State = State(texts: Texts, history: seq<Write>, editors: seq<Editor>)

  const EMPTY := State(map[], [], [])

  datatype Event = Call(id: int, change: Change) | Read(e: nat) | Swap(e: nat) | Other(w: Write)

  function AfterRead(s: State, ed: Editor): Editor {
    if ed.id !in s.texts then ed.(phase := Failed(NotFound))
    else
      match Edited(ed.change, s.texts[ed.id])
      case Failed(_) => ed.(phase := Failed(BadRequest))
      case Done(result) => ed.(phase := Writing(s.texts[ed.id], result, |s.history|))
  }

  /** `updateMany` with the text read in its `where`: whether it finds the row. */
  predicate Matches(s: State, ed: Editor)
    requires ed.phase.Writing?
  {
    ed.id in s.texts && s.texts[ed.id] == ed.phase.read
  }

  /** The last write to `id`, or -1. */
  function LastWrite(history: seq<Write>, id: int): (r: int)
    ensures -1 <= r < |history|
    ensures r >= 0 ==> history[r].id == id
    ensures forall k :: r < k < |history| ==> history[k].id != id
  {
    if history == [] then -1
    else if history[|history| - 1].id == id then |history| - 1
    else LastWrite(history[..|history| - 1], id)
  }

  function AfterMiss(s: State, ed: Editor): Editor {
    ed.(attempt := ed.attempt + 1, lost := ed.lost + [LastWrite(s.history, ed.id)],
        phase := if ed.attempt + 1 < ATTEMPTS then Reading else Failed(Conflict))
  }

  function Put(s: State, e: nat, ed: Editor): State
    requires e < |s.editors|
  {
    s.(editors := s.editors[e := ed])
  }

  /** One event; one that is not possible does nothing. */
  function Apply(s: State, ev: Event): State {
    match ev
    case Call(id, change) => s.(editors := s.editors + [Editor(id, change, 0, Reading, |s.history|, [])])
    case Read(e) =>
      if e < |s.editors| && s.editors[e].phase.Reading? then Put(s, e, AfterRead(s, s.editors[e])) else s
    case Swap(e) =>
      if !(e < |s.editors| && s.editors[e].phase.Writing?) then s
      else if Matches(s, s.editors[e]) then Committed(s, e)
      else Put(s, e, AfterMiss(s, s.editors[e]))
    case Other(w) =>
      if w.Edit? then s else s.(texts := Effect(s.texts, w), history := s.history + [w])
  }

  /** The row was found: the text becomes what the edit made of the text it read. */
  function Committed(s: State, e: nat): State
    requires e < |s.editors| && s.editors[e].phase.Writing?
  {
    var ed := s.editors[e];
    State(s.texts[ed.id := ed.phase.result], s.history + [Edit(ed.id, ed.change)],
          s.editors[e := ed.(phase := Succeeded(|s.history|))])
  }

  function Run(events: seq<Event>): State {
    if events == [] then EMPTY else Apply(Run(events[..|events| - 1]), events[|events| - 1])
  }

  // ---- Replaying -------------------------------------------------------------------

  lemma ReplayNext(history: seq<Write>, w: Write)
    ensures Replay(history + [w]) == Effect(Replay(history), w)
  {
    assert (history + [w])[..|history|] == history;
  }

  function TextAt(history: seq<Write>, id: int): Option<string> {
    var texts := Replay(history);
    if id in texts then Some(texts[id]) else None
  }

  /** A text changes only by a write to its own service. */
  lemma {:induction false} OnlyOwnWrites(history: seq<Write>, k: nat, id: int)
    requires k <= |history|
    requires forall j :: k <= j < |history| ==> history[j].id != id
    ensures TextAt(history, id) == TextAt(history[..k], id)
    decreases |history|
  {
    if k == |history| {
      assert history[..k] == history;
    } else {
      var init := history[..|history| - 1];
      OnlyOwnWrites(init, k, id);
      assert init[..k] == history[..k];
      hide Edited;
    }
  }

  // ---- What every event keeps ------------------------------------------------------

  /** What an edit about to write knows: the text it read was there when it read it. */
  ghost predicate GoodWriting(history: seq<Write>, ed: Editor) {
    ed.phase.Writing? ==>
      && ed.since <= ed.phase.readAt <= |history|
      && TextAt(history[..ed.phase.readAt], ed.id) == Some(ed.phase.read)
      && Edited(ed.change, ed.phase.read) == EnvFile.Done(ed.phase.result)
  }

  /** A successful edit is one write of the history, of the text that was there, during the call. */
  ghost predicate GoodSuccess(history: seq<Write>, ed: Editor) {
    ed.phase.Succeeded? ==>
      && ed.since <= ed.phase.at < |history|
      && history[ed.phase.at] == Edit(ed.id, ed.change)
      && TextAt(history[..ed.phase.at], ed.id).Some?
      && Edited(ed.change, TextAt(history[..ed.phase.at], ed.id).value).Done?
      && TextAt(history[..ed.phase.at + 1], ed.id)
           == Some(Edited(ed.change, TextAt(history[..ed.phase.at], ed.id).value).value)
  }

  /** Each failed attempt lost to a write of its own, in order, during the call. */
  ghost predicate GoodLost(history: seq<Write>, ed: Editor) {
    && |ed.lost| == ed.attempt
    && (forall i :: 0 <= i < |ed.lost| ==> ed.since <= ed.lost[i] < |history| && history[ed.lost[i]].id == ed.id)
    && (forall i, j :: 0 <= i < j < |ed.lost| ==> ed.lost[i] < ed.lost[j])
    && (ed.phase.Writing? ==> forall i :: 0 <= i < |ed.lost| ==> ed.lost[i] < ed.phase.readAt)
    && (ed.phase.Reading? || ed.phase.Writing? ==> ed.attempt < ATTEMPTS)
    && (ed.phase == Failed(Conflict) ==> ed.attempt == ATTEMPTS)
  }

  ghost predicate GoodEditor(history: seq<Write>, ed: Editor) {
    GoodWriting(history, ed) && GoodSuccess(history, ed) && GoodLost(history, ed) && ed.since <= |history|
  }

  /** Every edit in the history is that of one successful call, and of only one. */
  ghost predicate Owned(history: seq<Write>, editors: seq<Editor>) {
    && (forall k :: 0 <= k < |history| && history[k].Edit? ==> Claimed(editors, k))
    && (forall i, j :: 0 <= i < j < |editors| && editors[i].phase.Succeeded? && editors[j].phase.Succeeded? ==>
          editors[i].phase.at != editors[j].phase.at)
  }

  ghost predicate Claimed(editors: seq<Editor>, k: nat) {
    exists e :: 0 <= e < |editors| && editors[e].phase == Succeeded(k)
  }

  ghost predicate Inv(s: State) {
    && s.texts == Replay(s.history)
    && (forall e :: 0 <= e < |s.editors| ==> GoodEditor(s.history, s.editors[e]))
    && Owned(s.history, s.editors)
  }

  /** A longer history leaves all that is known of an edit as it is. */
  lemma StaysGood(history: seq<Write>, w: Write, ed: Editor)
    requires GoodEditor(history, ed)
    ensures GoodEditor(history + [w], ed)
  {
    hide TextAt, Edited;
    var more := history + [w];
    if ed.phase.Writing? { assert more[..ed.phase.readAt] == history[..ed.phase.readAt]; }
    if ed.phase.Succeeded? {
      assert more[..ed.phase.at] == history[..ed.phase.at];
      assert more[..ed.phase.at + 1] == history[..ed.phase.at + 1];
    }
  }

  lemma ReadGood(s: State, ed: Editor)
    requires s.texts == Replay(s.history) && GoodEditor(s.history, ed) && ed.phase.Reading?
    ensures GoodEditor(s.history, AfterRead(s, ed))
    ensures !AfterRead(s, ed).phase.Succeeded?
  {
    hide Edited, Replay;
    assert s.history[..|s.history|] == s.history;
  }

  /** If the text is no longer the one read, another write to it has come between. */
  lemma MissMeansWrite(history: seq<Write>, readAt: nat, id: int, read: string)
    requires readAt <= |history| && TextAt(history[..readAt], id) == Some(read) && TextAt(history, id) != Some(read)
    ensures readAt <= LastWrite(history, id)
  {
    hide TextAt;
    if LastWrite(history, id) < readAt { OnlyOwnWrites(history, readAt, id); }
  }

  lemma MissGood(s: State, ed: Editor)
    requires s.texts == Replay(s.history) && GoodLost(s.history, ed) && ed.phase.Writing? && !Matches(s, ed)
    requires ed.since <= ed.phase.readAt <= |s.history|
    requires TextAt(s.history[..ed.phase.readAt], ed.id) == Some(ed.phase.read)
    ensures GoodEditor(s.history, AfterMiss(s, ed))
  {
    hide Edited, Replay;
    MissMeansWrite(s.history, ed.phase.readAt, ed.id, ed.phase.read);
  }

  /** The write that commits is the edit of the text that is there. */
  lemma CommitIsEdit(s: State, ed: Editor)
    requires s.texts == Replay(s.history) && GoodEditor(s.history, ed) && ed.phase.Writing? && Matches(s, ed)
    ensures s.texts[ed.id := ed.phase.result] == Replay(s.history + [Edit(ed.id, ed.change)])
    ensures GoodEditor(s.history + [Edit(ed.id, ed.change)], ed.(phase := Succeeded(|s.history|)))
  {
    hide Edited, Replay;
    var w := Edit(ed.id, ed.change);
    ReplayNext(s.history, w);
    assert (s.history + [w])[..|s.history|] == s.history;
    assert (s.history + [w])[..|s.history| + 1] == s.history + [w];
  }

  /** An editor that does not succeed claims nothing. */
  lemma SameOwners(s: State, e: nat, ed: Editor)
    requires e < |s.editors| && Owned(s.history, s.editors)
    requires !s.editors[e].phase.Succeeded? && !ed.phase.Succeeded?
    ensures Owned(s.history, s.editors[e := ed])
  {
    forall k | 0 <= k < |s.history| && s.history[k].Edit? ensures Claimed(s.editors[e := ed], k) {
      assert Claimed(s.editors, k);
      var f :| 0 <= f < |s.editors| && s.editors[f].phase == Succeeded(k);
      assert s.editors[e := ed][f].phase == Succeeded(k);
    }
  }

  lemma CommitOwned(s: State, e: nat)
    requires Inv(s) && e < |s.editors| && s.editors[e].phase.Writing?
    ensures Owned(Committed(s, e).history, Committed(s, e).editors)
  {
    hide GoodWriting, GoodLost;
    var t := Committed(s, e);
    forall k | 0 <= k < |t.history| && t.history[k].Edit? ensures Claimed(t.editors, k) {
      if k < |s.history| {
        assert Claimed(s.editors, k);
        var f :| 0 <= f < |s.editors| && s.editors[f].phase == Succeeded(k);
        assert t.editors[f].phase == Succeeded(k);
      } else {
        assert t.editors[e].phase == Succeeded(k);
      }
    }
    forall i | 0 <= i < |s.editors| && s.editors[i].phase.Succeeded? ensures s.editors[i].phase.at < |s.history| {
      assert GoodEditor(s.history, s.editors[i]);
    }
  }

  lemma CallKeeps(s: State, id: int, change: Change)
    requires Inv(s)
    ensures Inv(Apply(s, Call(id, change)))
  {
    var t := Apply(s, Call(id, change));
    forall k | 0 <= k < |s.history| && s.history[k].Edit? ensures Claimed(t.editors, k) {
      assert Claimed(s.editors, k);
      var f :| 0 <= f < |s.editors| && s.editors[f].phase == Succeeded(k);
      assert t.editors[f].phase == Succeeded(k);
    }
    assert GoodEditor(s.history, t.editors[|s.editors|]);
    hide GoodEditor;
  }

  lemma ReadKeeps(s: State, e: nat)
    requires Inv(s)
    ensures Inv(Apply(s, Read(e)))
  {
    hide GoodEditor, Owned, AfterRead;
    if e < |s.editors| && s.editors[e].phase.Reading? {
      ReadGood(s, s.editors[e]);
      SameOwners(s, e, AfterRead(s, s.editors[e]));
    }
  }

  lemma EditorParts(history: seq<Write>, ed: Editor)
    requires GoodEditor(history, ed)
    ensures GoodWriting(history, ed) && GoodLost(history, ed)
  {
  }

  lemma SwapKeeps(s: State, e: nat)
    requires Inv(s)
    ensures Inv(Apply(s, Swap(e)))
  {
    hide GoodEditor, Owned, Edited;
    if e < |s.editors| && s.editors[e].phase.Writing? {
      var ed := s.editors[e];
      if Matches(s, ed) {
        CommitIsEdit(s, ed);
        CommitOwned(s, e);
        forall f | 0 <= f < |s.editors| ensures GoodEditor(s.history + [Edit(ed.id, ed.change)], s.editors[f]) {
          StaysGood(s.history, Edit(ed.id, ed.change), s.editors[f]);
        }
      } else {
        EditorParts(s.history, ed);
        MissGood(s, ed);
        SameOwners(s, e, AfterMiss(s, ed));
      }
    }
  }

  lemma OtherKeeps(s: State, w: Write)
    requires Inv(s)
    ensures Inv(Apply(s, Other(w)))
  {
    hide GoodEditor, Claimed;
    if !w.Edit? {
      ReplayNext(s.history, w);
      forall f | 0 <= f < |s.editors| ensures GoodEditor(s.history + [w], s.editors[f]) {
        StaysGood(s.history, w, s.editors[f]);
      }
    }
  }

  lemma {:induction false} RunKeeps(events: seq<Event>)
    ensures Inv(Run(events))
    decreases |events|
  {
    hide Inv, Apply;
    if events == [] {
      EmptyKept();
    } else {
      var s := Run(events[..|events| - 1]);
      RunKeeps(events[..|events| - 1]);
      match events[|events| - 1]
      case Call(id, change) => CallKeeps(s, id, change);
      case Read(e) => ReadKeeps(s, e);
      case Swap(e) => SwapKeeps(s, e);
      case Other(w) => OtherKeeps(s, w);
    }
  }

  lemma EmptyKept()
    ensures Inv(EMPTY)
  {
  }

  // ---- Main results ----------------------------------------------------------------

  /**
   Edits are linearizable. The stored texts are those of the history's writes, one after
   the other; each success is one of them, within its call, and puts the edit of the text
   that was there in its place; no two successes are one write; and every edit of the
   history is a success, so a call that fails has written nothing.
   */
  lemma EditsAreLinearizable(events: seq<Event>)
    ensures var s := Run(events);
      && s.texts == Replay(s.history)
      && (forall e :: 0 <= e < |s.editors| ==> GoodSuccess(s.history, s.editors[e]))
      && (forall i, j :: 0 <= i < j < |s.editors| && s.editors[i].phase.Succeeded? && s.editors[j].phase.Succeeded? ==>
            s.editors[i].phase.at != s.editors[j].phase.at)
      && (forall k :: 0 <= k < |s.history| && s.history[k].Edit? ==> Claimed(s.editors, k))
  {
    RunKeeps(events);
    var s := Run(events);
    hide Run, Replay, GoodSuccess, GoodLost, GoodWriting, Claimed;
    forall e | 0 <= e < |s.editors| ensures GoodSuccess(s.history, s.editors[e]) {
      assert GoodEditor(s.history, s.editors[e]);
    }
  }

  /** A conflict is reported only after 20 writes to the same service, each during the call. */
  lemma ConflictMeansWrites(events: seq<Event>, e: nat)
    requires e < |Run(events).editors| && Run(events).editors[e].phase == Failed(Conflict)
    ensures var s := Run(events); var ed := s.editors[e];
      && |ed.lost| == 20
      && (forall i :: 0 <= i < 20 ==> ed.since <= ed.lost[i] < |s.history| && s.history[ed.lost[i]].id == ed.id)
      && (forall i, j :: 0 <= i < j < 20 ==> ed.lost[i] < ed.lost[j])
  {
    RunKeeps(events);
    assert GoodEditor(Run(events).history, Run(events).editors[e]);
    hide Run, GoodSuccess, GoodWriting;
  }

  /** An attempt that does not find the row writes nothing, and a write has come since it read. */
  lemma FailedAttempt(events: seq<Event>, e: nat)
    requires e < |Run(events).editors| && Run(events).editors[e].phase.Writing?
    requires !Matches(Run(events), Run(events).editors[e])
    ensures var s, t := Run(events), Run(events + [Swap(e)]); var ed := s.editors[e];
      && t.texts == s.texts && t.history == s.history
      && exists k :: ed.phase.readAt <= k < |s.history| && s.history[k].id == ed.id
  {
    RunKeeps(events);
    assert (events + [Swap(e)])[..|events|] == events;
    var s := Run(events);
    assert GoodEditor(s.history, s.editors[e]);
    hide GoodEditor, Owned, Replay;
    var ed := s.editors[e];
    EditorParts(s.history, ed);
    MissMeansWrite(s.history, ed.phase.readAt, ed.id, ed.phase.read);
    var k := LastWrite(s.history, s.editors[e].id);
    assert s.history[k].id == s.editors[e].id;
  }

  // ---- What edits mean for one another ---------------------------------------------

  function NameOf(c: Change): string {
    match c
    case SetVar(name, _) => name
    case UnsetVar(name) => name
  }

  /** What a change does to the variables. */
  function Changed(c: Change, vars: map<string, string>): map<string, string> {
    match c
    case SetVar(name, value) => if name == EnvFile.PROTO then vars else vars[name := value]
    case UnsetVar(name) => vars - {name}
  }

  /** An edit of the text is the change of the variables. */
  lemma EditedMeans(c: Change, raw: string)
    requires Edited(c, raw).Done?
    ensures EnvFile.Parse(Edited(c, raw).value) == Changed(c, EnvFile.Parse(raw))
  {
    hide EnvFile.Parse, EnvFile.IsName, EnvFile.HasBreak;
    match c
    case SetVar(name, value) => EnvFile.SetIsUpdate(raw, name, value);
    case UnsetVar(name) => EnvFile.UnsetIsRemoval(raw, name);
  }

  /** Whether an edit is refused does not depend on the text. */
  lemma RefusedAlike(c: Change, raw: string, other: string)
    ensures Edited(c, raw).Done? <==> Edited(c, other).Done?
  {
    hide EnvFile.IsName, EnvFile.HasBreak, EnvFile.SetLines, EnvFile.Without, EnvFile.Lines;
  }

  /** Edits of different names commute on the variables. */
  lemma EditsCommute(c: Change, d: Change, raw: string)
    requires NameOf(c) != NameOf(d) && Edited(c, raw).Done? && Edited(d, raw).Done?
    ensures Edited(d, Edited(c, raw).value).Done? && Edited(c, Edited(d, raw).value).Done?
    ensures EnvFile.Parse(Edited(d, Edited(c, raw).value).value) == EnvFile.Parse(Edited(c, Edited(d, raw).value).value)
  {
    hide Edited, EnvFile.Parse;
    RefusedAlike(d, raw, Edited(c, raw).value);
    RefusedAlike(c, raw, Edited(d, raw).value);
    EditedMeans(c, raw);
    EditedMeans(d, raw);
    EditedMeans(d, Edited(c, raw).value);
    EditedMeans(c, Edited(d, raw).value);
    ChangesCommute(c, d, EnvFile.Parse(raw));
  }

  lemma ChangesCommute(c: Change, d: Change, vars: map<string, string>)
    requires NameOf(c) != NameOf(d)
    ensures Changed(d, Changed(c, vars)) == Changed(c, Changed(d, vars))
  {
  }

  /** What a reader of a service's text sees of one variable. */
  function Value(history: seq<Write>, id: int, name: string): Option<string> {
    var text := TextAt(history, id);
    if text.Some? && name in EnvFile.Parse(text.value) then Some(EnvFile.Parse(text.value)[name]) else None
  }

  /** A later write that leaves a variable alone: to another service, or an edit of another name. */
  predicate Spares(w: Write, id: int, name: string) {
    w.id == id ==> w.Edit? && NameOf(w.change) != name
  }

  lemma SparedStays(history: seq<Write>, w: Write, id: int, name: string)
    requires Spares(w, id, name)
    ensures Value(history + [w], id, name) == Value(history, id, name)
  {
    ReplayNext(history, w);
    hide Edited, EnvFile.Parse, Replay;
    if w.id == id && TextAt(history, id).Some? && Edited(w.change, TextAt(history, id).value).Done? {
      EditedMeans(w.change, TextAt(history, id).value);
    }
  }

  /** What a change leaves of its variable. */
  function Leaves(c: Change): Option<string> {
    match c
    case SetVar(_, value) => Some(value)
    case UnsetVar(_) => None
  }

  /**
   No update is lost: a variable that was set or unset keeps that state for as long as the
   writes to its service are edits of other names, whoever makes them.
   */
  lemma {:induction false} EditStands(before: seq<Write>, id: int, c: Change, after: seq<Write>)
    requires NameOf(c) != EnvFile.PROTO
    requires TextAt(before, id).Some? && Edited(c, TextAt(before, id).value).Done?
    requires forall j :: 0 <= j < |after| ==> Spares(after[j], id, NameOf(c))
    ensures Value(before + [Edit(id, c)] + after, id, NameOf(c)) == Leaves(c)
    decreases |after|
  {
    hide Edited, Value, TextAt, Spares, Leaves, NameOf;
    if after == [] {
      EditShows(before, id, c);
      assert before + [Edit(id, c)] + after == before + [Edit(id, c)];
    } else {
      var init, last := after[..|after| - 1], after[|after| - 1];
      EditStands(before, id, c, init);
      SparedStays(before + [Edit(id, c)] + init, last, id, NameOf(c));
      assert before + [Edit(id, c)] + init + [last] == before + [Edit(id, c)] + after;
    }
  }

  lemma EditShows(history: seq<Write>, id: int, c: Change)
    requires NameOf(c) != EnvFile.PROTO
    requires TextAt(history, id).Some? && Edited(c, TextAt(history, id).value).Done?
    ensures Value(history + [Edit(id, c)], id, NameOf(c)) == Leaves(c)
  {
    ReplayNext(history, Edit(id, c));
    hide Edited, EnvFile.Parse, Replay;
    EditedMeans(c, TextAt(history, id).value);
  }

  // ---- One call --------------------------------------------------------------------

  function Flat(others: seq<seq<Write>>): seq<Write> {
    if others == [] then [] else Flat(others[..|others| - 1]) + others[|others| - 1]
  }

  predicate Touches(writes: seq<Write>, id: int) {
    exists k :: 0 <= k < |writes| && writes[k].id == id
  }

  /** Between the read and the write of each of the first `n` attempts somebody wrote to `id`. */
  ghost predicate AllTouched(others: seq<seq<Write>>, n: nat, id: int)
    requires 2 * n <= |others|
  {
    forall i :: 0 <= i < n ==> Touches(others[2 * i + 1], id)
  }

  datatype Result = Saved(text: string) | Refused(why: Failure)

  class ServiceTable {
    var texts: Texts
    ghost var history: seq<Write>

    ghost predicate Tracked()
      reads this
    {
      texts == Replay(history)
    }

    /** Whatever others write while a call waits for the database. */
    method Await(writes: seq<Write>)
      requires Tracked()
      modifies this
      ensures Tracked() && history == old(history) + writes
    {
      hide Effect;
      for i := 0 to |writes|
        invariant Tracked() && history == old(history) + writes[..i]
      {
        ReplayNext(history, writes[i]);
        texts := Effect(texts, writes[i]);
        history := history + [writes[i]];
      }
    }

    /** `updateMany` of the row with this id and this text: whether there was one. */
    method UpdateMany(id: int, was: string, text: string, ghost change: Change) returns (updated: bool)
      requires Tracked() && Edited(change, was) == EnvFile.Done(text)
      modifies this
      ensures Tracked() && updated == (old(TextAt(history, id)) == Some(was))
      ensures history == if updated then old(history) + [Edit(id, change)] else old(history)
    {
      hide Edited, Replay;
      updated := id in texts && texts[id] == was;
      if updated {
        ReplayNext(history, Edit(id, change));
        texts := texts[id := text];
        history := history + [Edit(id, change)];
      }
    }

    /**
     `editEnv`. Others write before each read (`others[2i]`) and between each read and its
     write (`others[2i + 1]`); `used` is how many of these rounds the call saw.
     */
    method EditEnv(id: int, change: Change, others: seq<seq<Write>>) returns (r: Result, ghost used: nat)
      requires Tracked() && |others| == 2 * ATTEMPTS
      modifies this
      ensures Tracked() && used <= |others|
      ensures r.Saved? ==>
                var before := old(history) + Flat(others[..used]);
                && TextAt(before, id).Some? && Edited(change, TextAt(before, id).value) == EnvFile.Done(r.text)
                && history == before + [Edit(id, change)]
      ensures r.Refused? ==> history == old(history) + Flat(others[..used])
      ensures r == Refused(NotFound) ==> TextAt(history, id).None?
      ensures r == Refused(BadRequest) ==>
                TextAt(history, id).Some? && Edited(change, TextAt(history, id).value).Failed?
      ensures r == Refused(Conflict) ==>
                used == |others| && AllTouched(others, ATTEMPTS, id)
    {
      hide Edited, Touches, Flat, Replay;
      used := 0;
      NoneYet();
      for attempt := 0 to ATTEMPTS
        invariant Tracked() && used == 2 * attempt
        invariant history == old(history) + Flat(others[..used])
        invariant AllTouched(others, attempt, id)
      {
        Await(others[2 * attempt]);
        FlatNext(old(history), others, used);
        used := used + 1;
        if id !in texts { return Refused(NotFound), used; }
        var read := texts[id];
        ghost var at := history;
        var result := Edited(change, read);
        if result.Failed? { return Refused(BadRequest), used; }
        Await(others[2 * attempt + 1]);
        FlatNext(old(history), others, used);
        used := used + 1;
        var updated := UpdateMany(id, read, result.value, change);
        if updated { return Saved(result.value), used; }
        Interfered(at, others[2 * attempt + 1], id);
      }
      assert others[..used] == others;
      r := Refused(Conflict);
    }
  }

  lemma NoneYet()
    ensures Flat([]) == []
  {
  }

  lemma FlatNext(history: seq<Write>, others: seq<seq<Write>>, i: nat)
    requires i < |others|
    ensures history + Flat(others[..i + 1]) == history + Flat(others[..i]) + others[i]
  {
    assert others[..i + 1][..i] == others[..i];
  }

  /** A text that has changed was written to. */
  lemma Interfered(before: seq<Write>, writes: seq<Write>, id: int)
    requires TextAt(before + writes, id) != TextAt(before, id)
    ensures Touches(writes, id)
  {
    hide TextAt;
    assert (before + writes)[..|before|] == before;
    if !Touches(writes, id) {
      assert forall k :: |before| <= k < |before + writes| ==> (before + writes)[k] == writes[k - |before|];
      OnlyOwnWrites(before + writes, |before|, id);
    }
  }
}
