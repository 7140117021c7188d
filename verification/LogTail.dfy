/**
 The access-log reader (`drainOpenFd`, `poll`, `openPath`, `init`, `persistTailState` in
 ingest.ts).

 A file is a sequence of bytes. Its complete lines are the parts before each line feed,
 `parse` turns a line into a row or nothing, and the database sees a sequence of writes.
 The class is the source's module state. `Drain` is proved against `Committed`, which
 says what the writes of one drain are.
 */
module LogTail {
  import opened Wrappers

  type Byte = b: int | 0 <= b < 256

  const LF: Byte := 0x0A
  const READ_CHUNK := 64 * 1024
  const BATCH_SIZE := 500

  /** What the database sees: a batch of rows, or the saved tail position. */
  datatype Write<+Row> = Flush(rows: seq<Row>) | Persist(file: nat, offset: nat)

  // ---- Lines ---------------------------------------------------------------------

  /** The file split at its line feeds: the last part is the unterminated tail. */
  function Parts(bytes: seq<Byte>): (r: seq<seq<Byte>>)
    ensures |r| >= 1
  {
    if bytes == [] then [[]] else Glue(bytes[0], Parts(bytes[1..]))
  }

  /** One more byte in front: a line feed starts a part, any other byte joins the first. */
  function Glue(b: Byte, parts: seq<seq<Byte>>): (r: seq<seq<Byte>>)
    requires parts != []
    ensures r != []
  {
    if b == LF then [[]] + parts else [[b] + parts[0]] + parts[1..]
  }

  function ParseAll<Row>(lines: seq<seq<Byte>>, parse: seq<Byte> -> Option<Row>): seq<Row> {
    if lines == [] then []
    else Optional(parse(lines[0])) + ParseAll(lines[1..], parse)
  }

  /** The rows of the complete lines. */
  function Rows<Row>(bytes: seq<Byte>, parse: seq<Byte> -> Option<Row>): seq<Row> {
    ParseAll(Parts(bytes)[..|Parts(bytes)| - 1], parse)
  }

  function Tail(bytes: seq<Byte>): seq<Byte> {
    Parts(bytes)[|Parts(bytes)| - 1]
  }

  /** A position where a line starts. */
  ghost predicate Boundary(file: seq<Byte>, p: nat) {
    p <= |file| && (p > 0 ==> file[p - 1] == LF)
  }

  /** One more complete line is one more parsed line. */
  lemma {:induction false} PartsOfLine(line: seq<Byte>, rest: seq<Byte>)
    requires LF !in line
    ensures Parts(line) == [line]
    ensures Parts(line + [LF] + rest) == [line] + Parts(rest)
  {
    if line == [] {
      assert (line + [LF] + rest)[1..] == rest;
    } else {
      PartsOfLine(line[1..], rest);
      assert (line + [LF] + rest)[1..] == line[1..] + [LF] + rest;
      assert [line[0]] + line[1..] == line;
    }
  }

  lemma {:induction false} ParseAllThen<Row>(a: seq<seq<Byte>>, b: seq<seq<Byte>>, parse: seq<Byte> -> Option<Row>)
    ensures ParseAll(a + b, parse) == ParseAll(a, parse) + ParseAll(b, parse)
  {
    if a == [] {
      assert a + b == b;
    } else {
      assert (a + b)[1..] == a[1..] + b;
      ParseAllThen(a[1..], b, parse);
    }
  }

  lemma GlueThen(b: Byte, x: seq<seq<Byte>>, y: seq<seq<Byte>>)
    requires y != [] && (x != [] || b == LF)
    ensures Glue(b, x + y) == (if x != [] then Glue(b, x) else [[]]) + y
  {
  }

  lemma GlueInit(b: Byte, parts: seq<seq<Byte>>)
    requires |parts| >= 2
    ensures Glue(b, parts)[..|Glue(b, parts)| - 1] == Glue(b, parts[..|parts| - 1])
    ensures Glue(b, parts)[|Glue(b, parts)| - 1] == parts[|parts| - 1]
  {
  }

  /** Cutting at a line start cuts the parts. */
  lemma {:induction false} PartsThen(a: seq<Byte>, b: seq<Byte>)
    requires a == [] || a[|a| - 1] == LF
    ensures Parts(a + b) == Parts(a)[..|Parts(a)| - 1] + Parts(b)
    ensures Tail(a) == [] && (a != [] ==> |Parts(a)| >= 2)
    decreases |a|
  {
    hide Glue;
    if a == [] {
      assert a + b == b;
    } else {
      var rest := Parts(a[1..]);
      assert (a + b)[1..] == a[1..] + b;
      PartsThen(a[1..], b);
      GlueThen(a[0], rest[..|rest| - 1], Parts(b));
      if a[1..] == [] {
        PartsOfLine([], []);
        assert [] + [LF] + [] == a;
      } else {
        GlueInit(a[0], rest);
      }
    }
  }

  lemma RowsThen<Row>(a: seq<Byte>, b: seq<Byte>, parse: seq<Byte> -> Option<Row>)
    requires a == [] || a[|a| - 1] == LF
    ensures Rows(a + b, parse) == Rows(a, parse) + Rows(b, parse)
    ensures Tail(a + b) == Tail(b)
  {
    hide Parts, ParseAll;
    PartsThen(a, b);
    var pa, pb := Parts(a)[..|Parts(a)| - 1], Parts(b);
    assert (pa + pb)[..|pa + pb| - 1] == pa + pb[..|pb| - 1];
    ParseAllThen(pa, pb[..|pb| - 1], parse);
  }

  lemma RowsOfPartial<Row>(partial: seq<Byte>, parse: seq<Byte> -> Option<Row>)
    requires LF !in partial
    ensures Rows(partial, parse) == [] && Tail(partial) == partial
  {
    PartsOfLine(partial, []);
  }

  /** Between two line starts, one further line adds what it parses to. */
  lemma RowsNextLine<Row>(file: seq<Byte>, p: nat, q: nat, line: seq<Byte>, parse: seq<Byte> -> Option<Row>)
    requires p <= q && Boundary(file, p) && Boundary(file, q) && LF !in line
    requires q + |line| + 1 <= |file| && file[q..q + |line| + 1] == line + [LF]
    ensures Rows(file[p..q + |line| + 1], parse) ==
            Rows(file[p..q], parse) + Optional(parse(line))
  {
    assert file[p..q + |line| + 1] == file[p..q] + (line + [LF]);
    RowsThen(file[p..q], line + [LF], parse);
    PartsOfLine(line, []);
    assert line + [LF] + [] == line + [LF];
    assert ([line] + Parts([]))[..1] == [line];
    OneParsed(line, parse);
  }

  lemma OneParsed<Row>(line: seq<Byte>, parse: seq<Byte> -> Option<Row>)
    ensures ParseAll([line], parse) == Optional(parse(line))
  {
    assert [line][1..] == [];
  }

  // ---- What a drain writes -------------------------------------------------------

  /** Where the last saved position of these writes is, or `p` when there is none. */
  ghost function LastSaved<Row>(writes: seq<Write<Row>>, p: nat): nat {
    if writes != [] && writes[|writes| - 1].Persist? then writes[|writes| - 1].offset else p
  }

  /**
   The writes of a drain of `file` from the line start `p`: batches of one to
   500 rows, each followed by the saved position it reaches, and each exactly
   the rows of the lines between the previous position and that one.
   */
  ghost predicate Committed<Row>(writes: seq<Write<Row>>, file: seq<Byte>, id: nat, p: nat,
                                 parse: seq<Byte> -> Option<Row>) {
    writes == [] ||
    var n := |writes|;
    && n >= 2
    && writes[n - 2].Flush? && writes[n - 1].Persist? && writes[n - 1].file == id
    && Committed(writes[..n - 2], file, id, p, parse)
    && (var from, to := LastSaved(writes[..n - 2], p), writes[n - 1].offset;
        && p <= from < to <= |file| && Boundary(file, to)
        && writes[n - 2].rows == Rows(file[from..to], parse)
        && 1 <= |writes[n - 2].rows| <= 500)
  }

  /** All rows flushed by some writes. */
  ghost function Flushed<Row>(writes: seq<Write<Row>>): seq<Row> {
    if writes == [] then []
    else
      var last := writes[|writes| - 1];
      Flushed(writes[..|writes| - 1]) + if last.Flush? then last.rows else []
  }

  lemma RowsSpan<Row>(file: seq<Byte>, p: nat, q: nat, r: nat, parse: seq<Byte> -> Option<Row>)
    requires p <= q <= r <= |file| && Boundary(file, p) && Boundary(file, q)
    ensures Rows(file[p..r], parse) == Rows(file[p..q], parse) + Rows(file[q..r], parse)
  {
    assert file[p..r] == file[p..q] + file[q..r];
    RowsThen(file[p..q], file[q..r], parse);
  }

  lemma FlushedThen<Row>(writes: seq<Write<Row>>, rows: seq<Row>, saved: Write<Row>)
    requires saved.Persist?
    ensures Flushed(writes + [Flush(rows), saved]) == Flushed(writes) + rows
  {
    var all := writes + [Flush(rows), saved];
    assert all[..|all| - 1] == writes + [Flush(rows)];
    assert (writes + [Flush(rows)])[..|writes|] == writes;
  }

  /** The batches of a drain, in order, are the rows of the lines up to the last saved position. */
  lemma {:induction false} CommittedRows<Row>(
      writes: seq<Write<Row>>, file: seq<Byte>, id: nat, p: nat, parse: seq<Byte> -> Option<Row>)
    requires Committed(writes, file, id, p, parse) && Boundary(file, p)
    ensures p <= LastSaved(writes, p) <= |file| && Boundary(file, LastSaved(writes, p))
    ensures Flushed(writes) == Rows(file[p..LastSaved(writes, p)], parse)
    decreases |writes|
  {
    hide Rows;
    if writes == [] {
      RowsOfPartial([], parse);
      assert file[p..p] == [];
    } else {
      hide Flushed;
      var n := |writes|;
      CommittedRows(writes[..n - 2], file, id, p, parse);
      RowsSpan(file, p, LastSaved(writes[..n - 2], p), writes[n - 1].offset, parse);
      assert writes == writes[..n - 2] + [Flush(writes[n - 2].rows), writes[n - 1]];
      FlushedThen(writes[..n - 2], writes[n - 2].rows, writes[n - 1]);
    }
  }

  /**
   Every line of `file` from the line start `from` to the line start `p` is accounted
   for: it is in a batch of `writes`, or parsed to nothing, or its row waits in `batch`.
   Nothing waiting is behind a saved position.
   */
  ghost predicate Accounted<Row>(writes: seq<Write<Row>>, batch: seq<Row>, file: seq<Byte>, id: nat, from: nat, p: nat,
                                 parse: seq<Byte> -> Option<Row>) {
    && Committed(writes, file, id, from, parse)
    && from <= LastSaved(writes, from) <= p <= |file|
    && Boundary(file, from) && Boundary(file, LastSaved(writes, from)) && Boundary(file, p)
    && batch == Rows(file[LastSaved(writes, from)..p], parse)
    && |batch| < 500
  }

  function Optional<Row>(row: Option<Row>): seq<Row> {
    match row case Some(r) => [r] case None => []
  }

  lemma StartAccounted<Row>(file: seq<Byte>, id: nat, p: nat, parse: seq<Byte> -> Option<Row>)
    requires Boundary(file, p)
    ensures Accounted([], [], file, id, p, p, parse)
  {
    assert file[p..p] == [];
    RowsOfPartial([], parse);
  }

  /** A full or final batch, flushed and saved. */
  lemma FlushAccounted<Row>(writes: seq<Write<Row>>, batch: seq<Row>, file: seq<Byte>, id: nat, from: nat, p: nat,
                            parse: seq<Byte> -> Option<Row>)
    requires Committed(writes, file, id, from, parse) && from <= LastSaved(writes, from) <= p && Boundary(file, p)
    requires Boundary(file, from)
    requires batch == Rows(file[LastSaved(writes, from)..p], parse) && 1 <= |batch| <= BATCH_SIZE
    ensures Accounted(writes + [Flush(batch), Persist(id, p)], [], file, id, from, p, parse)
  {
    hide Rows;
    var all := writes + [Flush(batch), Persist(id, p)];
    assert all[..|all| - 2] == writes;
    RowsOfPartial([], parse);
    assert file[p..p] == [];
    assert LastSaved(writes, from) < p;
  }

  /** One more line: its row waits, or completes a batch. */
  lemma LineAccounted<Row>(writes: seq<Write<Row>>, batch: seq<Row>, file: seq<Byte>, id: nat, from: nat, p: nat,
                           line: seq<Byte>, parse: seq<Byte> -> Option<Row>)
    requires Accounted(writes, batch, file, id, from, p, parse) && LF !in line
    requires p + |line| + 1 <= |file| && file[p..p + |line| + 1] == line + [LF]
    ensures var grown, q := batch + Optional(parse(line)), p + |line| + 1;
            if |grown| < BATCH_SIZE then Accounted(writes, grown, file, id, from, q, parse)
            else Accounted(writes + [Flush(grown), Persist(id, q)], [], file, id, from, q, parse)
  {
    hide Rows, Committed, Boundary, LastSaved;
    var grown, q := batch + Optional(parse(line)), p + |line| + 1;
    LineEnds(file, p, line);
    RowsNextLine(file, LastSaved(writes, from), p, line, parse);
    if |grown| >= BATCH_SIZE { FlushAccounted(writes, grown, file, id, from, q, parse); }
  }

  /** Behind a line feed a line starts. */
  lemma LineEnds(file: seq<Byte>, p: nat, line: seq<Byte>)
    requires p + |line| + 1 <= |file| && file[p..p + |line| + 1] == line + [LF]
    ensures Boundary(file, p + |line| + 1)
  {
    assert file[p..p + |line| + 1][|line|] == LF;
  }

  // ---- What the reads return -------------------------------------------------------

  /**
   `gives` says how many bytes a read at each position returns, if as many are asked for,
   and nothing for a read that fails. This is what one at `at` returns.
   */
  function Chunk(gives: nat -> nat, at: nat, size: nat): nat
    requires at <= size
  {
    Min(gives(at), Min(READ_CHUNK, size - at))
  }

  function Min(a: nat, b: nat): nat {
    if a < b then a else b
  }

  /** Where reading from `at` to `size` ends: at the first read that returns nothing. */
  function ReadsTo(gives: nat -> nat, at: nat, size: nat): (r: nat)
    requires at <= size
    ensures at <= r <= size && (r < size ==> gives(r) == 0)
    decreases size - at
  {
    var n := Chunk(gives, at, size);
    if n == 0 then at else ReadsTo(gives, at + n, size)
  }

  lemma ReadsStep(gives: nat -> nat, at: nat, size: nat)
    requires at <= size
    ensures at + Chunk(gives, at, size) <= size
    ensures ReadsTo(gives, at, size) == ReadsTo(gives, at + Chunk(gives, at, size), size)
    ensures Chunk(gives, at, size) == 0 ==> ReadsTo(gives, at, size) == at
  {
  }

  /** Every read before `size` returns something. */
  ghost predicate AllDeliver(gives: nat -> nat, size: nat) {
    forall p: nat :: p < size ==> gives(p) > 0
  }

  /** Then reading ends at the size, however short the single reads come. */
  lemma {:induction false} ReadsAll(gives: nat -> nat, at: nat, size: nat)
    requires at <= size && AllDeliver(gives, size)
    ensures ReadsTo(gives, at, size) == size
    decreases size - at
  {
    var n := Chunk(gives, at, size);
    if n > 0 { ReadsAll(gives, at + n, size); }
  }

  // ---- The module ----------------------------------------------------------------

  class Tailer<Row> {
    const parse: seq<Byte> -> Option<Row>
    var openFile: Option<nat>
    var offset: nat
    var partial: seq<Byte>
    var writes: seq<Write<Row>>

    constructor (parse: seq<Byte> -> Option<Row>, writes: seq<Write<Row>>)
      ensures this.parse == parse && this.writes == writes && openFile == None && offset == 0 && partial == []
    {
      this.parse := parse;
      this.writes := writes;
      openFile, offset, partial := None, 0, [];
    }

    /** The bytes in `partial` are the ones read since the last line start of `file`. */
    ghost predicate Reads(file: seq<Byte>)
      reads this
    {
      && |partial| <= offset <= |file|
      && Boundary(file, offset - |partial|)
      && partial == file[offset - |partial|..offset]
      && LF !in partial
    }

    /** `partial` starts at a line start but may still hold complete lines. */
    ghost predicate Unread(file: seq<Byte>)
      reads this
    {
      && |partial| <= offset <= |file|
      && Boundary(file, offset - |partial|)
      && partial == file[offset - |partial|..offset]
    }

    /** Where the first line that is not yet handled starts. */
    ghost function Start(): nat
      reads this
    {
      if |partial| <= offset then offset - |partial| else 0
    }

    method PersistTailState()
      requires |partial| <= offset
      modifies this`writes
      ensures writes == old(writes) + if openFile.Some? then [Persist(openFile.value, offset - |partial|)] else []
    {
      if openFile.Some? {
        writes := writes + [Persist(openFile.value, offset - |partial|)];
      }
    }

    method OpenPath(id: nat, startOffset: nat)
      modifies this`openFile, this`offset, this`partial
      ensures openFile == Some(id) && offset == startOffset && partial == []
    {
      openFile, offset, partial := Some(id), startOffset, [];
    }

    /** The position of the first line feed of `partial`, if it has one. */
    method NextNewline() returns (nl: nat)
      ensures nl <= |partial| && LF !in partial[..nl]
      ensures nl < |partial| ==> partial[nl] == LF
    {
      nl := 0;
      while nl < |partial| && partial[nl] != LF
        invariant nl <= |partial| && LF !in partial[..nl]
      {
        nl := nl + 1;
      }
    }

    /** Where a drain of contents of this size starts: at the beginning again, if less is there than was read. */
    ghost function From(size: nat): nat
      reads this
    {
      if offset > size then 0 else Start()
    }

    /** Up to which byte a drain of contents of this size reads. */
    ghost function ReadEnd(gives: nat -> nat, size: nat): nat
      reads this
    {
      ReadsTo(gives, if offset > size then 0 else offset, size)
    }

    /**
     Reads from `offset` to the size the file has now, `contents`, in chunks that may
     come short, and flushes the rows of complete lines in batches. `None` is a failing
     `fstat`. A read that fails or returns nothing ends the drain early. All that was read
     is flushed, but for the unterminated tail.
     */
    method Drain(contents: Option<seq<Byte>>, gives: nat -> nat) returns (ghost added: seq<Write<Row>>)
      requires |partial| <= offset
      requires openFile.Some? && contents.Some? && offset <= |contents.value| ==> Reads(contents.value)
      modifies this`offset, this`partial, this`writes
      ensures writes == old(writes) + added
      ensures openFile.None? || contents.None? ==> added == [] && offset == old(offset) && partial == old(partial)
      ensures openFile.Some? && contents.Some? ==>
                var file, from := contents.value, old(From(|contents.value|));
                && Reads(file) && Accounted(added, [], file, openFile.value, from, Start(), parse)
                && offset == old(ReadEnd(gives, |file|)) && from <= offset
                && Flushed(added) == Rows(file[from..offset], parse) && partial == Tail(file[from..offset])
    {
      hide Accounted, Boundary, Chunk, Rows, Tail, Flushed;
      added := [];
      if openFile.None? || contents.None? {
        return;
      }
      var file, id := contents.value, openFile.value;
      if |file| < offset {
        offset, partial := 0, [];
        FileStart(file);
      }
      ghost var from := Start();
      var batch;
      batch, added := ReadAll(file, id, gives);
      added := FlushRest(file, id, from, added, batch);
      DrainIsSplitAndParse(added, partial, file, id, from, Start(), parse);
    }

    /** The loop of a drain. */
    method ReadAll(file: seq<Byte>, id: nat, gives: nat -> nat)
        returns (batch: seq<Row>, ghost added: seq<Write<Row>>)
      requires openFile == Some(id) && Reads(file)
      modifies this`offset, this`partial, this`writes
      ensures writes == old(writes) + added && Reads(file)
      ensures Accounted(added, batch, file, id, old(Start()), Start(), parse)
      ensures offset == old(ReadsTo(gives, offset, |file|))
    {
      hide Accounted, Boundary, Chunk;
      ghost var from, end := Start(), ReadsTo(gives, offset, |file|);
      batch, added := [], [];
      StartAccounted(file, id, from, parse);
      while offset < |file|
        invariant Reads(file) && Accounted(added, batch, file, id, from, Start(), parse)
        invariant writes == old(writes) + added
        invariant ReadsTo(gives, offset, |file|) == end
      {
        var more := ReadChunk(file, gives);
        if !more {
          break;
        }
        batch, added := TakeLines(file, id, from, added, batch);
      }
    }

    /** The end of a drain: the rows still waiting are flushed and the position is saved. */
    method FlushRest(ghost file: seq<Byte>, ghost id: nat, ghost from: nat, ghost before: seq<Write<Row>>,
                     batch: seq<Row>)
        returns (ghost added: seq<Write<Row>>)
      requires openFile == Some(id) && Reads(file) && Accounted(before, batch, file, id, from, Start(), parse)
      modifies this`writes
      ensures before <= added && writes == old(writes) + added[|before|..]
      ensures Accounted(added, [], file, id, from, Start(), parse)
    {
      hide Accounted, Boundary;
      added := before;
      if |batch| > 0 {
        writes := writes + [Flush(batch)];
        PersistTailState();
        BatchAccounted(added, batch, file, id, from, Start(), parse);
        added := added + [Flush(batch), Persist(id, Start())];
      }
    }

    /** Reads at most `READ_CHUNK` bytes; a read may come short, and one of nothing or with an error ends the drain. */
    method ReadChunk(file: seq<Byte>, gives: nat -> nat) returns (more: bool)
      requires Unread(file) && offset < |file|
      modifies this`offset, this`partial
      ensures Unread(file) && Start() == old(Start())
      ensures offset == old(offset + Chunk(gives, offset, |file|)) && (more <==> offset > old(offset))
      ensures !more ==> partial == old(partial)
      ensures ReadsTo(gives, offset, |file|) == old(ReadsTo(gives, offset, |file|))
      ensures !more ==> ReadsTo(gives, offset, |file|) == offset
    {
      hide ReadsTo, Boundary;
      ReadsStep(gives, offset, |file|);
      var want := if READ_CHUNK < |file| - offset then READ_CHUNK else |file| - offset;
      var read := if gives(offset) < want then gives(offset) else want;
      more := read > 0;
      if more {
        assert file[Start()..offset + read] == partial + file[offset..offset + read];
        partial := partial + file[offset..offset + read];
        offset := offset + read;
      }
    }

    /** The inner loop: takes the complete lines out of `partial`, flushing full batches. */
    method TakeLines(file: seq<Byte>, id: nat, ghost from: nat, ghost before: seq<Write<Row>>, rows: seq<Row>)
        returns (batch: seq<Row>, ghost added: seq<Write<Row>>)
      requires openFile == Some(id) && Unread(file)
      requires Accounted(before, rows, file, id, from, Start(), parse)
      modifies this`partial, this`writes
      ensures before <= added && writes == old(writes) + added[|before|..]
      ensures Reads(file) && Accounted(added, batch, file, id, from, Start(), parse)
    {
      hide Accounted, Boundary;
      batch, added := rows, before;
      var nl := NextNewline();
      while nl < |partial|
        invariant Unread(file) && 0 <= nl <= |partial|
        invariant LF !in partial[..nl] && (nl < |partial| ==> partial[nl] == LF)
        invariant before <= added && writes == old(writes) + added[|before|..]
        invariant Accounted(added, batch, file, id, from, Start(), parse)
        decreases |partial|
      {
        var flushed;
        batch, flushed := TakeLine(file, id, from, added, batch, nl);
        added := added + flushed;
        nl := NextNewline();
      }
      assert partial[..nl] == partial;
    }

    /** One turn of the inner loop, with the line feed at `nl`. */
    method TakeLine(file: seq<Byte>, id: nat, ghost from: nat, ghost before: seq<Write<Row>>, rows: seq<Row>, nl: nat)
        returns (batch: seq<Row>, flushed: seq<Write<Row>>)
      requires openFile == Some(id) && Unread(file)
      requires nl < |partial| && LF !in partial[..nl] && partial[nl] == LF
      requires Accounted(before, rows, file, id, from, Start(), parse)
      modifies this`partial, this`writes
      ensures writes == old(writes) + flushed && Unread(file) && |partial| < |old(partial)|
      ensures Accounted(before + flushed, batch, file, id, from, Start(), parse)
    {
      hide Accounted;
      batch, flushed := rows, [];
      var line := partial[..nl];
      assert file[Start()..Start() + nl + 1] == line + [LF];
      assert file[Start() + nl] == LF;
      LineAccounted(before, batch, file, id, from, Start(), line, parse);
      partial := partial[nl + 1..];
      var parsed := parse(line);
      if parsed.Some? {
        batch := batch + [parsed.value];
      }
      assert batch == rows + Optional(parsed) && before + [] == before;
      if |batch| >= BATCH_SIZE {
        flushed := [Flush(batch), Persist(id, offset - |partial|)];
        writes := writes + [Flush(batch)];
        PersistTailState();
        batch := [];
      }
    }

    /**
     One poll: drains the open file, opens the path's file when that is another one, and
     saves the position. `path` is the identity at the path after the first drain, `gives`
     and `later` are what the reads of the two drains return.
     */
    method Poll(contents: Option<seq<Byte>>, gives: nat -> nat, path: Option<nat>, reopened: Option<seq<Byte>>,
                later: nat -> nat)
        returns (ghost first: seq<Write<Row>>, ghost second: seq<Write<Row>>)
      requires |partial| <= offset
      requires openFile.Some? && contents.Some? && offset <= |contents.value| ==> Reads(contents.value)
      modifies this
      ensures openFile == if path.Some? then path else old(openFile)
      ensures |partial| <= offset
      ensures writes == old(writes) + first + second +
                        if openFile.Some? then [Persist(openFile.value, offset - |partial|)] else []
      ensures old(openFile).Some? && contents.Some? ==>
                var file, from := contents.value, old(From(|contents.value|));
                var end := old(ReadEnd(gives, |file|));
                && from <= end <= |file| && Flushed(first) == Rows(file[from..end], parse)
                && |Tail(file[from..end])| <= end && LF !in file[end - |Tail(file[from..end])|..end]
                && Accounted(first, [], file, old(openFile).value, from, end - |Tail(file[from..end])|, parse)
                && (openFile == old(openFile) ==>
                      Reads(file) && offset == end && partial == Tail(file[from..end]))
      ensures openFile != old(openFile) && reopened.Some? ==>
                var file := reopened.value;
                && Reads(file) && Accounted(second, [], file, openFile.value, 0, Start(), parse)
                && offset == ReadsTo(later, 0, |file|)
                && Flushed(second) == Rows(file[..offset], parse) && partial == Tail(file[..offset])
      ensures openFile == old(openFile) ==> second == []
      ensures openFile != old(openFile) && reopened.None? ==> second == [] && offset == 0 && partial == []
      ensures old(openFile).None? || contents.None? ==>
                first == [] && (openFile == old(openFile) ==> offset == old(offset) && partial == old(partial))
    {
      hide Accounted, Rows, Tail, Flushed, ReadsTo, Boundary;
      first := Drain(contents, gives);
      second := [];
      if path.Some? && openFile != path {
        OpenPath(path.value, 0);
        if reopened.Some? { FileStart(reopened.value); }
        second := Drain(reopened, later);
        if reopened.Some? { assert reopened.value[0..offset] == reopened.value[..offset]; }
      }
      if openFile.Some? {
        PersistTailState();
      }
    }

    /** Start-up: resumes at the saved position when it belongs to the path's file. */
    method Init(path: Option<nat>)
      requires openFile.None? && offset == 0 && partial == []
      modifies this`openFile, this`offset, this`partial
      ensures openFile == path && partial == []
      ensures offset == match path
                        case None => 0
                        case Some(id) => if SavedState(writes).Some? && SavedState(writes).value.0 == id
                                         then SavedState(writes).value.1 else 0
    {
      var saved := SavedState(writes);
      if path.Some? {
        if saved.Some? && saved.value.0 == path.value {
          OpenPath(path.value, saved.value.1);
        } else {
          OpenPath(path.value, 0);
        }
      }
    }
  }

  /** The tail position in the database: the one written last. */
  function SavedState<Row>(writes: seq<Write<Row>>): Option<(nat, nat)> {
    if writes == [] then None
    else
      match writes[|writes| - 1]
      case Persist(id, offset) => Some((id, offset))
      case Flush(_) => SavedState(writes[..|writes| - 1])
  }

  lemma FileStart(file: seq<Byte>)
    ensures Boundary(file, 0)
  {
  }

  lemma BatchAccounted<Row>(writes: seq<Write<Row>>, batch: seq<Row>, file: seq<Byte>, id: nat, from: nat, p: nat,
                            parse: seq<Byte> -> Option<Row>)
    requires Accounted(writes, batch, file, id, from, p, parse) && batch != []
    ensures Accounted(writes + [Flush(batch), Persist(id, p)], [], file, id, from, p, parse)
  {
    FlushAccounted(writes, batch, file, id, from, p, parse);
  }

  /**
   What a drain does, without its batches: the flushed rows together are the rows of the
   lines it passed, in order, and what it holds back is exactly the unterminated tail.
   */
  lemma DrainIsSplitAndParse<Row>(writes: seq<Write<Row>>, partial: seq<Byte>, file: seq<Byte>, id: nat, from: nat,
                                  p: nat, parse: seq<Byte> -> Option<Row>)
    requires Accounted(writes, [], file, id, from, p, parse)
    requires p + |partial| <= |file| && partial == file[p..p + |partial|] && LF !in partial
    ensures from <= p && Flushed(writes) == Rows(file[from..p + |partial|], parse)
    ensures partial == Tail(file[from..p + |partial|])
  {
    hide Rows, Tail;
    CommittedRows(writes, file, id, from, parse);
    RowsSpan(file, from, LastSaved(writes, from), p, parse);
    assert file[from..p + |partial|] == file[from..p] + partial;
    RowsThen(file[from..p], partial, parse);
    RowsOfPartial(partial, parse);
  }
}
