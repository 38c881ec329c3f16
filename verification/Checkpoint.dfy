/** The resumable rollout checkpoint (rollout_checkpoint.py) and the strict loader that reads a
    finished one (evaluate_rollout_checkpoints.py). The file is an append-only list of records;
    appending one line is atomic and a crash may come between any two lines. */
module Checkpoint {
  import opened Prelude
  import opened Permutations

  const SCHEMA_VERSION: int := 1

  /** The metadata every record repeats. */
  datatype Meta = Meta(schemaVersion: int, mode: string, name: string, backend: string, numSamples: int,
    settings: string)

  datatype Row = Row(order: int, sourceRow: int, groundTruth: string)

  datatype Record = Record(meta: Meta, sourceRow: int, order: int, groundTruth: string, prediction: string,
    error: string)

  datatype Result2 = Result2(prediction: string, error: string)

  function MakeRecord(meta: Meta, row: Row, r: Result2): Record {
    Record(meta, row.sourceRow, row.order, row.groundTruth, r.prediction, r.error)
  }

  // ---------------------------------------------------------------- reading

  /** The latest record of each row. */
  function Latest(log: seq<Record>): map<int, Record> {
    if log == [] then map[]
    else Latest(log[..|log| - 1])[log[|log| - 1].sourceRow := log[|log| - 1]]
  }

  /** The rows in order of first appearance, as a Python dict keeps them. */
  function FirstSeen(log: seq<Record>): (r: seq<int>)
    ensures forall x :: x in r <==> x in Latest(log)
    ensures forall i, j :: 0 <= i < j < |r| ==> r[i] != r[j]
  {
    if log == [] then []
    else
      var before := FirstSeen(log[..|log| - 1]);
      if log[|log| - 1].sourceRow in before then before else before + [log[|log| - 1].sourceRow]
  }

  /** A line of the file: blank, a record, or anything else. */
  datatype Line = Blank | Good(record: Record) | Broken

  /** The records of the lines, blank lines skipped. */
  function Parsed(lines: seq<Line>): seq<Record> {
    if lines == [] then []
    else Parsed(lines[..|lines| - 1]) + (if lines[|lines| - 1].Good? then [lines[|lines| - 1].record] else [])
  }

  predicate Readable(lines: seq<Line>) {
    forall i :: 0 <= i < |lines| ==> !lines[i].Broken?
  }

  /** The lines that appending some records writes. */
  function Written(log: seq<Record>): seq<Line> {
    seq(|log|, i requires 0 <= i < |log| => Good(log[i]))
  }

  lemma {:induction false} WrittenParses(log: seq<Record>)
    ensures Readable(Written(log)) && Parsed(Written(log)) == log
  {
    if log != [] {
      WrittenParses(log[..|log| - 1]);
      assert Written(log)[..|log| - 1] == Written(log[..|log| - 1]);
      assert log == log[..|log| - 1] + [log[|log| - 1]];
    }
  }

  lemma {:induction false} SnocLatest(log: seq<Record>, r: Record)
    ensures Latest(log + [r]) == Latest(log)[r.sourceRow := r]
    ensures FirstSeen(log + [r])
         == if r.sourceRow in FirstSeen(log) then FirstSeen(log) else FirstSeen(log) + [r.sourceRow]
  {
    assert (log + [r])[..|log|] == log;
  }

  /** One more record: the dict keeps the place of a row it already has. */
  method AddRecord(keys0: seq<int>, records0: map<int, Record>, r: Record, ghost log: seq<Record>)
    returns (keys: seq<int>, records: map<int, Record>)
    requires keys0 == FirstSeen(log) && records0 == Latest(log)
    ensures keys == FirstSeen(log + [r]) && records == Latest(log + [r])
  {
    SnocLatest(log, r);
    keys := if r.sourceRow in records0 then keys0 else keys0 + [r.sourceRow];
    records := records0[r.sourceRow := r];
  }

  /** Reading stops with an error at the first broken line; otherwise the latest record of every row,
      rows in order of first appearance. */
  method ReadCheckpoint(lines: seq<Line>) returns (ok: bool, keys: seq<int>, records: map<int, Record>)
    ensures ok <==> Readable(lines)
    ensures ok ==> keys == FirstSeen(Parsed(lines)) && records == Latest(Parsed(lines))
  {
    keys, records := [], map[];
    for i := 0 to |lines|
      invariant Readable(lines[..i])
      invariant keys == FirstSeen(Parsed(lines[..i])) && records == Latest(Parsed(lines[..i]))
    {
      assert lines[..i + 1][..i] == lines[..i];
      ghost var before := Parsed(lines[..i]);
      match lines[i] {
        case Blank => assert Parsed(lines[..i + 1]) == before;
        case Broken => return false, keys, records;
        case Good(r) =>
          assert Parsed(lines[..i + 1]) == before + [r];
          keys, records := AddRecord(keys, records, r, before);
      }
    }
    assert lines[..|lines|] == lines;
    return true, keys, records;
  }

  /** Position `i` holds the last record of `row`. */
  ghost predicate IsLast(log: seq<Record>, i: int, row: int) {
    0 <= i < |log| && log[i].sourceRow == row && forall j :: i < j < |log| ==> log[j].sourceRow != row
  }

  lemma {:induction false} LatestIsLast(log: seq<Record>, row: int)
    ensures row in Latest(log) <==> exists i :: 0 <= i < |log| && log[i].sourceRow == row
    ensures row in Latest(log) ==> exists i :: IsLast(log, i, row) && log[i] == Latest(log)[row]
    decreases |log|
  {
    if log != [] {
      var n := |log| - 1;
      LatestIsLast(log[..n], row);
      if log[n].sourceRow == row {
        assert IsLast(log, n, row) && Latest(log)[row] == log[n];
      } else if row in Latest(log[..n]) {
        var i :| IsLast(log[..n], i, row) && log[..n][i] == Latest(log[..n])[row];
        forall j | i < j < |log| ensures log[j].sourceRow != row {
          if j < n {
            assert log[..n][j] == log[j];
          }
        }
        assert IsLast(log, i, row) && log[i] == Latest(log)[row];
      } else {
        forall i | 0 <= i < |log| ensures log[i].sourceRow != row {
          if i < n {
            assert log[..n][i] == log[i];
          }
        }
      }
    }
  }

  // ---------------------------------------------------------------- the selected rows

  /** Selected rows are numbered in order and come from different Parquet rows. */
  ghost predicate WellSelected(rows: seq<Row>) {
    DifferentSources(rows) && forall i :: 0 <= i < |rows| ==> rows[i].order == i
  }

  predicate Resumable(records: map<int, Record>, rows: seq<Row>, meta: Meta) {
    forall k :: k in records ==>
      records[k].meta == meta
      && exists i :: 0 <= i < |rows| && rows[i].sourceRow == k && rows[i].groundTruth == records[k].groundTruth
  }

  predicate IsPending(row: Row, records: map<int, Record>, retry: bool) {
    row.sourceRow !in records || (retry && records[row.sourceRow].error != "")
  }

  function PendingRows(rows: seq<Row>, records: map<int, Record>, retry: bool): (r: seq<Row>)
    ensures forall x :: x in r <==> x in rows && IsPending(x, records, retry)
  {
    if rows == [] then []
    else
      var before := PendingRows(rows[..|rows| - 1], records, retry);
      assert rows == rows[..|rows| - 1] + [rows[|rows| - 1]];
      if IsPending(rows[|rows| - 1], records, retry) then before + [rows[|rows| - 1]] else before
  }

  ghost predicate DifferentSources(rows: seq<Row>) {
    forall i, j :: 0 <= i < j < |rows| ==> rows[i].sourceRow != rows[j].sourceRow
  }

  lemma {:induction false} PendingDistinct(rows: seq<Row>, records: map<int, Record>, retry: bool)
    requires DifferentSources(rows)
    ensures DifferentSources(PendingRows(rows, records, retry))
    decreases |rows|
  {
    if rows != [] {
      var n := |rows| - 1;
      var before := PendingRows(rows[..n], records, retry);
      PendingDistinct(rows[..n], records, retry);
      forall k | 0 <= k < |before| ensures before[k].sourceRow != rows[n].sourceRow {
        assert before[k] in before;
        assert before[k] in rows[..n];
        var i :| 0 <= i < n && rows[..n][i] == before[k];
        assert rows[i].sourceRow != rows[n].sourceRow;
      }
    }
  }

  ghost predicate Ordered(rows: seq<Row>) {
    forall i, j :: 0 <= i < j < |rows| ==> rows[i].order < rows[j].order
  }

  /** The pending rows keep the order of the selection. */
  lemma {:induction false} PendingInOrder(rows: seq<Row>, records: map<int, Record>, retry: bool)
    requires Ordered(rows)
    ensures Ordered(PendingRows(rows, records, retry))
    decreases |rows|
  {
    if rows != [] {
      var n := |rows| - 1;
      var before := PendingRows(rows[..n], records, retry);
      PendingInOrder(rows[..n], records, retry);
      forall k | 0 <= k < |before| ensures before[k].order < rows[n].order {
        EarlierOrder(rows, before, k);
      }
    }
  }

  lemma {:induction false} EarlierOrder(rows: seq<Row>, before: seq<Row>, k: nat)
    requires rows != [] && Ordered(rows) && k < |before| && before[k] in rows[..|rows| - 1]
    ensures before[k].order < rows[|rows| - 1].order
  {
    var n := |rows| - 1;
    var i :| 0 <= i < n && rows[..n][i] == before[k];
    assert rows[i].order < rows[n].order;
  }

  // ---------------------------------------------------------------- one invocation

  /** What one invocation got done before it finished or crashed: results for some pending rows,
      each at most once, in any order. */
  datatype Session = Session(overwrite: bool, retry: bool, rows: seq<Row>, results: seq<Result2>)

  function Records(meta: Meta, rows: seq<Row>, results: seq<Result2>): (r: seq<Record>)
    requires |rows| == |results|
    ensures |r| == |rows| && forall i :: 0 <= i < |rows| ==> r[i] == MakeRecord(meta, rows[i], results[i])
  {
    seq(|rows|, i requires 0 <= i < |rows| => MakeRecord(meta, rows[i], results[i]))
  }

  function StartLog(log: seq<Record>, s: Session): seq<Record> {
    if s.overwrite then [] else log
  }

  ghost predicate PossibleSession(log: seq<Record>, s: Session, rows: seq<Row>) {
    && |s.rows| == |s.results|
    && (forall i :: 0 <= i < |s.rows| ==> s.rows[i] in PendingRows(rows, Latest(StartLog(log, s)), s.retry))
    && (forall i, j :: 0 <= i < j < |s.rows| ==> s.rows[i].sourceRow != s.rows[j].sourceRow)
  }

  /** The session got through everything that was pending. */
  ghost predicate FinishedSession(log: seq<Record>, s: Session, rows: seq<Row>) {
    forall x :: x in PendingRows(rows, Latest(StartLog(log, s)), s.retry) ==> x in s.rows
  }

  function AfterSession(log: seq<Record>, s: Session, meta: Meta): seq<Record>
    requires |s.rows| == |s.results|
  {
    StartLog(log, s) + Records(meta, s.rows, s.results)
  }

  // ---------------------------------------------------------------- what every log keeps

  predicate Describes(row: Row, r: Record) {
    row.sourceRow == r.sourceRow && row.order == r.order && row.groundTruth == r.groundTruth
  }

  predicate FromSome(rows: seq<Row>, r: Record) {
    exists k :: 0 <= k < |rows| && Describes(rows[k], r)
  }

  /** Each record is that of a selected row under these parameters. */
  ghost predicate FromSelection(log: seq<Record>, rows: seq<Row>, meta: Meta) {
    forall i :: 0 <= i < |log| ==> log[i].meta == meta && FromSome(rows, log[i])
  }

  /** Only a failure is ever followed by another record of the same row. */
  ghost predicate NoSuccessSuperseded(log: seq<Record>) {
    forall i, j :: 0 <= i < j < |log| && log[i].sourceRow == log[j].sourceRow ==> log[i].error != ""
  }

  ghost predicate GoodLog(log: seq<Record>, rows: seq<Row>, meta: Meta) {
    FromSelection(log, rows, meta) && NoSuccessSuperseded(log)
  }

  /** A log of the same parameters is never refused on resume. */
  lemma {:induction false} GoodLogResumes(log: seq<Record>, rows: seq<Row>, meta: Meta)
    requires GoodLog(log, rows, meta)
    ensures Resumable(Latest(log), rows, meta)
  {
    forall k | k in Latest(log)
      ensures Latest(log)[k].meta == meta
        && exists i :: 0 <= i < |rows| && rows[i].sourceRow == k && rows[i].groundTruth == Latest(log)[k].groundTruth
    {
      LatestIsLast(log, k);
      var j :| IsLast(log, j, k) && log[j] == Latest(log)[k];
      assert FromSome(rows, log[j]);
    }
  }

  lemma {:induction false} AddedFromSelection(log: seq<Record>, s: Session, rows: seq<Row>, meta: Meta)
    requires PossibleSession(log, s, rows)
    ensures FromSelection(Records(meta, s.rows, s.results), rows, meta)
  {
    var added := Records(meta, s.rows, s.results);
    forall i | 0 <= i < |added| ensures added[i].meta == meta && FromSome(rows, added[i]) {
      assert s.rows[i] in rows;
      var k :| 0 <= k < |rows| && rows[k] == s.rows[i];
      assert Describes(rows[k], added[i]);
    }
  }

  lemma {:induction false} SessionKeepsGood(log: seq<Record>, s: Session, rows: seq<Row>, meta: Meta)
    requires GoodLog(log, rows, meta) && PossibleSession(log, s, rows)
    ensures GoodLog(AfterSession(log, s, meta), rows, meta)
  {
    AddedFromSelection(log, s, rows, meta);
    SessionSupersedesFailures(log, s, rows, meta);
  }

  lemma {:induction false} SessionSupersedesFailures(log: seq<Record>, s: Session, rows: seq<Row>, meta: Meta)
    requires NoSuccessSuperseded(log) && PossibleSession(log, s, rows)
    ensures NoSuccessSuperseded(AfterSession(log, s, meta))
  {
    var base, added := StartLog(log, s), Records(meta, s.rows, s.results);
    var all := AfterSession(log, s, meta);
    forall i, j | 0 <= i < j < |all| && all[i].sourceRow == all[j].sourceRow ensures all[i].error != "" {
      if i < |base| <= j {
        AddedAfterFailure(base, s, rows, i, j - |base|);
      }
    }
  }

  /** A row that is pending again has only failures behind it. */
  lemma {:induction false} AddedAfterFailure(base: seq<Record>, s: Session, rows: seq<Row>, i: nat, j: nat)
    requires NoSuccessSuperseded(base) && i < |base| && j < |s.rows|
    requires s.rows[j] in PendingRows(rows, Latest(base), s.retry)
    requires base[i].sourceRow == s.rows[j].sourceRow
    ensures base[i].error != ""
  {
    var row := s.rows[j].sourceRow;
    LatestIsLast(base, row);
    assert row in Latest(base);
    var k :| IsLast(base, k, row) && base[k] == Latest(base)[row];
    assert i <= k;
  }

  /** A finished session leaves exactly one latest record for each selected row, its own. */
  ghost predicate Complete(log: seq<Record>, rows: seq<Row>, meta: Meta) {
    && (forall k :: k in Latest(log) <==> exists i :: 0 <= i < |rows| && rows[i].sourceRow == k)
    && (forall i :: 0 <= i < |rows| && rows[i].sourceRow in Latest(log) ==>
          var r := Latest(log)[rows[i].sourceRow];
          r.meta == meta && r.order == rows[i].order && r.groundTruth == rows[i].groundTruth)
  }

  lemma {:induction false} FinishedIsComplete(log: seq<Record>, s: Session, rows: seq<Row>, meta: Meta)
    requires WellSelected(rows) && GoodLog(log, rows, meta)
    requires PossibleSession(log, s, rows) && FinishedSession(log, s, rows)
    ensures Complete(AfterSession(log, s, meta), rows, meta)
  {
    var all := AfterSession(log, s, meta);
    SessionKeepsGood(log, s, rows, meta);
    forall i | 0 <= i < |rows| ensures rows[i].sourceRow in Latest(all) {
      EveryRowRecorded(log, s, rows, meta, i);
    }
    forall k | k in Latest(all) ensures exists i :: 0 <= i < |rows| && rows[i].sourceRow == k {
      LatestIsLast(all, k);
      var j :| IsLast(all, j, k) && all[j] == Latest(all)[k];
      assert FromSome(rows, all[j]);
    }
    forall i | 0 <= i < |rows| && rows[i].sourceRow in Latest(all)
      ensures var r := Latest(all)[rows[i].sourceRow];
        r.meta == meta && r.order == rows[i].order && r.groundTruth == rows[i].groundTruth
    {
      LatestBelongs(all, rows, meta, i);
    }
  }

  lemma {:induction false} LatestBelongs(log: seq<Record>, rows: seq<Row>, meta: Meta, i: nat)
    requires WellSelected(rows) && FromSelection(log, rows, meta) && i < |rows| && rows[i].sourceRow in Latest(log)
    ensures var r := Latest(log)[rows[i].sourceRow];
      r.meta == meta && r.order == rows[i].order && r.groundTruth == rows[i].groundTruth
  {
    LatestIsLast(log, rows[i].sourceRow);
    var j :| IsLast(log, j, rows[i].sourceRow) && log[j] == Latest(log)[rows[i].sourceRow];
    var k :| 0 <= k < |rows| && Describes(rows[k], log[j]);
    assert k == i;
  }

  lemma {:induction false} InEither(base: seq<Record>, added: seq<Record>, row: int)
    ensures row in Latest(base + added)
       <==> row in Latest(base) || exists j :: 0 <= j < |added| && added[j].sourceRow == row
  {
    LatestIsLast(base + added, row);
    LatestIsLast(base, row);
    var all := base + added;
    if row in Latest(base) {
      var i :| 0 <= i < |base| && base[i].sourceRow == row;
      assert all[i].sourceRow == row;
    }
    if j :| 0 <= j < |added| && added[j].sourceRow == row {
      assert all[|base| + j].sourceRow == row;
    }
    if i :| 0 <= i < |all| && all[i].sourceRow == row {
      if i < |base| {
        assert base[i].sourceRow == row;
      } else {
        assert added[i - |base|].sourceRow == row;
      }
    }
  }

  lemma {:induction false} EveryRowRecorded(log: seq<Record>, s: Session, rows: seq<Row>, meta: Meta, i: nat)
    requires PossibleSession(log, s, rows) && FinishedSession(log, s, rows) && i < |rows|
    ensures rows[i].sourceRow in Latest(AfterSession(log, s, meta))
  {
    var base, added := StartLog(log, s), Records(meta, s.rows, s.results);
    InEither(base, added, rows[i].sourceRow);
    if rows[i].sourceRow !in Latest(base) {
      assert rows[i] in PendingRows(rows, Latest(base), s.retry);
      var j :| 0 <= j < |s.rows| && s.rows[j] == rows[i];
      assert added[j].sourceRow == rows[i].sourceRow;
    }
  }

  // ---------------------------------------------------------------- whole histories

  ghost predicate PossibleRun(log: seq<Record>, ss: seq<Session>, rows: seq<Row>, meta: Meta)
    decreases |ss|
  {
    ss == [] || (PossibleSession(log, ss[0], rows) && PossibleRun(AfterSession(log, ss[0], meta), ss[1..], rows, meta))
  }

  ghost function LogAfter(log: seq<Record>, ss: seq<Session>, rows: seq<Row>, meta: Meta): seq<Record>
    requires PossibleRun(log, ss, rows, meta)
    decreases |ss|
  {
    if ss == [] then log else LogAfter(AfterSession(log, ss[0], meta), ss[1..], rows, meta)
  }

  ghost predicate LastFinished(log: seq<Record>, ss: seq<Session>, rows: seq<Row>, meta: Meta)
    requires PossibleRun(log, ss, rows, meta) && ss != []
    decreases |ss|
  {
    if |ss| == 1 then FinishedSession(log, ss[0], rows)
    else LastFinished(AfterSession(log, ss[0], meta), ss[1..], rows, meta)
  }

  /** In every history of crashed, resumed, overwriting and retrying invocations with the same
      parameters no success is superseded and the log can be resumed; and when the last invocation
      finished, the latest-record view holds each selected row once, with its own order and truth. */
  lemma {:induction false} EveryHistoryIsGood(log: seq<Record>, ss: seq<Session>, rows: seq<Row>, meta: Meta)
    requires WellSelected(rows) && GoodLog(log, rows, meta) && PossibleRun(log, ss, rows, meta)
    ensures var end := LogAfter(log, ss, rows, meta);
      && GoodLog(end, rows, meta) && Resumable(Latest(end), rows, meta)
      && (ss != [] && LastFinished(log, ss, rows, meta) ==> Complete(end, rows, meta))
    decreases |ss|
  {
    if ss == [] {
      GoodLogResumes(log, rows, meta);
    } else {
      SessionKeepsGood(log, ss[0], rows, meta);
      if |ss| == 1 {
        assert LogAfter(log, ss, rows, meta) == AfterSession(log, ss[0], meta);
        if FinishedSession(log, ss[0], rows) {
          FinishedIsComplete(log, ss[0], rows, meta);
        }
        GoodLogResumes(AfterSession(log, ss[0], meta), rows, meta);
      } else {
        EveryHistoryIsGood(AfterSession(log, ss[0], meta), ss[1..], rows, meta);
      }
    }
  }

  // ---------------------------------------------------------------- generating and appending

  class CheckpointFile {
    var lines: seq<Record>

    constructor (initial: seq<Record>)
      ensures lines == initial
    {
      lines := initial;
    }

    method Append(meta: Meta, row: Row, r: Result2)
      modifies this
      ensures lines == old(lines) + [MakeRecord(meta, row, r)]
    {
      lines := lines + [MakeRecord(meta, row, r)];
    }
  }

  type Engine = seq<Row> -> Option<seq<string>>

  /** The result of one row alone: its first prediction, or an error. */
  function Alone(row: Row, engine: Engine): Result2 {
    match engine([row])
    case Some(ps) => if ps != [] then Result2(ps[0], "") else Result2("", "IndexError: list index out of range")
    case None => Result2("", "generation failed")
  }

  /** The results of a batch: all predictions if the batch call gives one per row, else row by row. */
  function BatchResults(batch: seq<Row>, engine: Engine): (r: seq<Result2>)
    ensures |r| == |batch|
  {
    var whole := engine(batch);
    if whole.Some? && |whole.value| == |batch| then
      seq(|batch|, i requires 0 <= i < |batch| => Result2(whole.value[i], ""))
    else seq(|batch|, i requires 0 <= i < |batch| => Alone(batch[i], engine))
  }

  function AllResults(pending: seq<Row>, size: nat, engine: Engine): (r: seq<Result2>)
    requires size > 0
    ensures |r| == |pending|
    decreases |pending|
  {
    if pending == [] then []
    else
      var n := Min(size, |pending|);
      BatchResults(pending[..n], engine) + AllResults(pending[n..], size, engine)
  }

  /** A batch call that succeeds gives each row what a call for that row alone would give. */
  ghost predicate RowByRow(engine: Engine) {
    forall batch, i :: 0 <= i < |batch| && engine(batch).Some? && |engine(batch).value| == |batch|
                       ==> engine([batch[i]]) == Some([engine(batch).value[i]])
  }

  /** Then batches, their size and their failures do not show: each row gets its own result. */
  lemma {:induction false} BatchingDoesNotShow(pending: seq<Row>, size: nat, engine: Engine, i: nat)
    requires size > 0 && RowByRow(engine) && i < |pending|
    ensures AllResults(pending, size, engine)[i] == Alone(pending[i], engine)
    decreases |pending|
  {
    var n := Min(size, |pending|);
    if i < n {
      assert pending[..n][i] == pending[i];
    } else {
      BatchingDoesNotShow(pending[n..], size, engine, i - n);
    }
  }

  /** A local run appends one record per pending row, in order, batch by batch. */
  method RunLocal(file: CheckpointFile, pending: seq<Row>, meta: Meta, batchSize: nat, engine: Engine)
    requires batchSize > 0
    modifies file
    ensures file.lines == old(file.lines) + Records(meta, pending, AllResults(pending, batchSize, engine))
  {
    var start := 0;
    assert pending[0..] == pending;
    while start < |pending|
      invariant 0 <= start <= |pending|
      invariant file.lines + LeftOver(pending[start..], meta, batchSize, engine)
             == old(file.lines) + LeftOver(pending, meta, batchSize, engine)
      decreases |pending| - start
    {
      start := RunBatch(file, pending, start, meta, batchSize, engine);
    }
    assert LeftOver(pending[start..], meta, batchSize, engine) == [];
  }

  /** One batch of a local run; what is left over plus what is written stays the same. */
  method RunBatch(file: CheckpointFile, pending: seq<Row>, start: nat, meta: Meta, batchSize: nat, engine: Engine)
    returns (end: nat)
    requires batchSize > 0 && start < |pending|
    modifies file
    ensures end == Min(start + batchSize, |pending|)
    ensures file.lines + LeftOver(pending[end..], meta, batchSize, engine)
         == old(file.lines) + LeftOver(pending[start..], meta, batchSize, engine)
  {
    end := Min(start + batchSize, |pending|);
    var batch := pending[start..end];
    var results := BatchResults(batch, engine);
    assert pending[start..] == batch + pending[end..];
    LeftOverStep(batch, pending[end..], meta, batchSize, engine);
    AppendBatch(file, batch, results, meta);
    ConcatAssociates(old(file.lines), Records(meta, batch, results), LeftOver(pending[end..], meta, batchSize, engine));
  }

  lemma {:induction false} ConcatAssociates<E>(a: seq<E>, b: seq<E>, c: seq<E>)
    ensures (a + b) + c == a + (b + c)
  {
  }

  /** The records still to be written for `rows`. */
  ghost function LeftOver(rows: seq<Row>, meta: Meta, size: nat, engine: Engine): seq<Record>
    requires size > 0
  {
    Records(meta, rows, AllResults(rows, size, engine))
  }

  lemma {:induction false} LeftOverStep(batch: seq<Row>, tail: seq<Row>, meta: Meta, size: nat, engine: Engine)
    requires size > 0 && batch != [] && |batch| == Min(size, |batch| + |tail|)
    ensures LeftOver(batch + tail, meta, size, engine)
         == Records(meta, batch, BatchResults(batch, engine)) + LeftOver(tail, meta, size, engine)
  {
    var rest := batch + tail;
    assert rest[..|batch|] == batch && rest[|batch|..] == tail;
    assert AllResults(rest, size, engine) == BatchResults(batch, engine) + AllResults(tail, size, engine);
    RecordsConcat(meta, batch, BatchResults(batch, engine), tail, AllResults(tail, size, engine));
  }

  lemma {:induction false} RecordsConcat(meta: Meta, a: seq<Row>, ra: seq<Result2>, b: seq<Row>, rb: seq<Result2>)
    requires |a| == |ra| && |b| == |rb|
    ensures Records(meta, a + b, ra + rb) == Records(meta, a, ra) + Records(meta, b, rb)
  {
  }

  method AppendBatch(file: CheckpointFile, batch: seq<Row>, results: seq<Result2>, meta: Meta)
    requires |batch| == |results|
    modifies file
    ensures file.lines == old(file.lines) + Records(meta, batch, results)
  {
    for i := 0 to |batch|
      invariant file.lines == old(file.lines) + Records(meta, batch, results)[..i]
    {
      file.Append(meta, batch[i], results[i]);
      assert Records(meta, batch, results)[..i + 1]
          == Records(meta, batch, results)[..i] + [MakeRecord(meta, batch[i], results[i])];
    }
    assert Records(meta, batch, results)[..|batch|] == Records(meta, batch, results);
  }

  /** A remote run appends one record per pending row in whatever order the calls complete. */
  method RunRemote(file: CheckpointFile, pending: seq<Row>, meta: Meta, generateOne: Row -> Result2,
        completion: seq<nat>)
    requires Injective(completion) && Below(completion, |pending|) && |completion| == |pending|
    modifies file
    ensures var done := Reindex(pending, completion);
      file.lines
        == old(file.lines) + Records(meta, done, seq(|done|, i requires 0 <= i < |done| => generateOne(done[i])))
  {
    var done := Reindex(pending, completion);
    var results := seq(|done|, i requires 0 <= i < |done| => generateOne(done[i]));
    for i := 0 to |completion|
      invariant file.lines == old(file.lines) + Records(meta, done, results)[..i]
    {
      var row := pending[completion[i]];
      file.Append(meta, row, generateOne(row));
      assert Records(meta, done, results)[..i + 1]
          == Records(meta, done, results)[..i] + [MakeRecord(meta, row, generateOne(row))];
    }
    assert Records(meta, done, results)[..|done|] == Records(meta, done, results);
  }

  /** Any first part of a run over the pending rows, in any order, is a possible session, and the
      whole of it is a finished one: a crash between two appends does no harm. */
  lemma {:induction false} PrefixIsPossible(log: seq<Record>, rows: seq<Row>, overwrite: bool, retry: bool,
      completion: seq<nat>, results: seq<Result2>, n: nat)
    requires WellSelected(rows)
    requires var p := PendingRows(rows, Latest(if overwrite then [] else log), retry);
      Injective(completion) && Below(completion, |p|) && |completion| == |p| && |results| == |p| && n <= |p|
    ensures var p := PendingRows(rows, Latest(if overwrite then [] else log), retry);
      var s := Session(overwrite, retry, Reindex(p, completion)[..n], results[..n]);
      PossibleSession(log, s, rows) && (n == |p| ==> FinishedSession(log, s, rows))
  {
    var p := PendingRows(rows, Latest(if overwrite then [] else log), retry);
    var done := Reindex(p, completion);
    PendingDistinct(rows, Latest(if overwrite then [] else log), retry);
    Pigeonhole(completion, |p|);
    forall i | 0 <= i < n ensures done[..n][i] in p {
      assert done[i] == p[completion[i]];
    }
    forall i, j | 0 <= i < j < n ensures done[i].sourceRow != done[j].sourceRow {
      assert completion[i] != completion[j];
    }
    if n == |p| {
      forall x | x in p ensures x in done[..n] {
        var k :| 0 <= k < |p| && p[k] == x;
        assert k in completion;
        var i :| 0 <= i < |completion| && completion[i] == k;
        assert done[..n][i] == x;
      }
    }
  }

  // ---------------------------------------------------------------- one invocation from start to end

  function Pending(log: seq<Record>, rows: seq<Row>, overwrite: bool, retry: bool): seq<Row> {
    PendingRows(rows, Latest(if overwrite then [] else log), retry)
  }

  /** An invocation that records all pending rows, in the order of `completion`. */
  lemma {:induction false} WholeRunIsFinished(log: seq<Record>, rows: seq<Row>, overwrite: bool, retry: bool,
      completion: seq<nat>, results: seq<Result2>)
    requires WellSelected(rows)
    requires var p := Pending(log, rows, overwrite, retry);
      Injective(completion) && Below(completion, |p|) && |completion| == |p| == |results|
    ensures var p := Pending(log, rows, overwrite, retry);
      var s := Session(overwrite, retry, Reindex(p, completion), results);
      PossibleSession(log, s, rows) && FinishedSession(log, s, rows)
  {
    var p := Pending(log, rows, overwrite, retry);
    PrefixIsPossible(log, rows, overwrite, retry, completion, results, |p|);
    assert Reindex(p, completion)[..|p|] == Reindex(p, completion) && results[..|p|] == results;
  }

  lemma {:induction false} IdentityReindex<T>(xs: seq<T>)
    ensures Injective(InOrder(|xs|)) && Below(InOrder(|xs|), |xs|) && Reindex(xs, InOrder(|xs|)) == xs
  {
  }

  function InOrder(n: nat): (r: seq<nat>)
    ensures |r| == n
  {
    seq(n, i requires 0 <= i < n => i)
  }

  /** The row has no record yet, or it is to be retried and its last record is a failure. */
  ghost predicate MustRun(start: seq<Record>, row: Row, retry: bool) {
    || (forall i :: 0 <= i < |start| ==> start[i].sourceRow != row.sourceRow)
    || (retry && exists i :: IsLast(start, i, row.sourceRow) && start[i].error != "")
  }

  lemma {:induction false} LastIsUnique(log: seq<Record>, i: int, j: int, row: int)
    requires IsLast(log, i, row) && IsLast(log, j, row)
    ensures i == j
  {
  }

  lemma {:induction false} PendingIff(start: seq<Record>, row: Row, retry: bool)
    ensures IsPending(row, Latest(start), retry) <==> MustRun(start, row, retry)
  {
    LatestIsLast(start, row.sourceRow);
    if row.sourceRow in Latest(start) {
      var i :| IsLast(start, i, row.sourceRow) && start[i] == Latest(start)[row.sourceRow];
      forall j | IsLast(start, j, row.sourceRow) ensures i == j {
        LastIsUnique(start, i, j, row.sourceRow);
      }
    }
  }

  /** The only new record of the row is at `j`, and it carries the row's own data. */
  ghost predicate OnlyNewRecord(start: seq<Record>, after: seq<Record>, row: Row, meta: Meta, j: int) {
    && |start| <= j < |after| && after[j].meta == meta && after[j].sourceRow == row.sourceRow
    && after[j].order == row.order && after[j].groundTruth == row.groundTruth
    && forall x :: |start| <= x < |after| && after[x].sourceRow == row.sourceRow ==> x == j
  }

  ghost predicate NoNewRecord(start: seq<Record>, after: seq<Record>, row: int) {
    forall x :: |start| <= x < |after| ==> after[x].sourceRow != row
  }

  /** Each selected row that has to run gets exactly one new record; no other row gets any, so it
      keeps its last one. */
  ghost predicate RanExactly(start: seq<Record>, after: seq<Record>, rows: seq<Row>, meta: Meta, retry: bool) {
    && start <= after
    && (forall r :: 0 <= r < |rows| ==>
          if MustRun(start, rows[r], retry) then exists j :: OnlyNewRecord(start, after, rows[r], meta, j)
          else NoNewRecord(start, after, rows[r].sourceRow))
    && (forall x :: |start| <= x < |after| ==> IsSelected(rows, after[x].sourceRow))
  }

  ghost predicate IsSelected(rows: seq<Row>, row: int) {
    exists r :: 0 <= r < |rows| && rows[r].sourceRow == row
  }

  /** A row that need not run, selected or not, keeps its last record. */
  lemma {:induction false} UntouchedKeepsLast(start: seq<Record>, after: seq<Record>, rows: seq<Row>, meta: Meta,
      retry: bool, row: int, i: int)
    requires RanExactly(start, after, rows, meta, retry)
    requires forall r :: 0 <= r < |rows| && rows[r].sourceRow == row ==> !MustRun(start, rows[r], retry)
    ensures IsLast(after, i, row) <==> IsLast(start, i, row)
    ensures IsLast(start, i, row) ==> after[i] == start[i]
  {
    forall x | |start| <= x < |after| ensures after[x].sourceRow != row {
      assert IsSelected(rows, after[x].sourceRow);
    }
    if IsLast(after, i, row) {
      assert i < |start|;
    }
    if IsLast(start, i, row) {
      forall j | i < j < |after| ensures after[j].sourceRow != row {
        if j < |start| {
          assert after[j] == start[j];
        }
      }
    }
  }

  lemma {:induction false} FinishedRunsExactly(before: seq<Record>, s: Session, rows: seq<Row>, meta: Meta)
    requires WellSelected(rows) && PossibleSession(before, s, rows) && FinishedSession(before, s, rows)
    ensures RanExactly(StartLog(before, s), AfterSession(before, s, meta), rows, meta, s.retry)
  {
    var start, added, after := StartLog(before, s), Records(meta, s.rows, s.results), AfterSession(before, s, meta);
    forall x | |start| <= x < |after| ensures IsSelected(rows, after[x].sourceRow) {
      assert after[x] == added[x - |start|];
      OneSelected(rows, s.rows[x - |start|]);
    }
    forall r | 0 <= r < |rows|
      ensures if MustRun(start, rows[r], s.retry) then exists j :: OnlyNewRecord(start, after, rows[r], meta, j)
              else NoNewRecord(start, after, rows[r].sourceRow)
    {
      PendingIff(start, rows[r], s.retry);
      if MustRun(start, rows[r], s.retry) {
        RanOnce(start, s, after, rows[r], meta);
      } else {
        NotRun(start, s, after, rows, r, meta);
      }
    }
  }

  lemma {:induction false} OneSelected(rows: seq<Row>, row: Row)
    requires row in rows
    ensures IsSelected(rows, row.sourceRow)
  {
    var r :| 0 <= r < |rows| && rows[r] == row;
  }

  lemma {:induction false} RanOnce(start: seq<Record>, s: Session, after: seq<Record>, row: Row, meta: Meta)
    requires |s.rows| == |s.results| && after == start + Records(meta, s.rows, s.results)
    requires row in s.rows && DifferentSources(s.rows)
    ensures exists j :: OnlyNewRecord(start, after, row, meta, j)
  {
    var added := Records(meta, s.rows, s.results);
    var i :| 0 <= i < |s.rows| && s.rows[i] == row;
    var j := |start| + i;
    forall x | |start| <= x < |after| && after[x].sourceRow == row.sourceRow ensures x == j {
      assert after[x] == added[x - |start|];
    }
    assert OnlyNewRecord(start, after, row, meta, j);
  }

  lemma {:induction false} NotRun(start: seq<Record>, s: Session, after: seq<Record>, rows: seq<Row>, r: nat,
      meta: Meta)
    requires WellSelected(rows) && r < |rows| && !IsPending(rows[r], Latest(start), s.retry)
    requires |s.rows| == |s.results| && after == start + Records(meta, s.rows, s.results)
    requires forall i :: 0 <= i < |s.rows| ==> s.rows[i] in PendingRows(rows, Latest(start), s.retry)
    ensures NoNewRecord(start, after, rows[r].sourceRow)
  {
    var added := Records(meta, s.rows, s.results);
    forall x | |start| <= x < |after| ensures after[x].sourceRow != rows[r].sourceRow {
      var row := s.rows[x - |start|];
      assert after[x] == added[x - |start|] && row in rows;
      var q :| 0 <= q < |rows| && rows[q] == row;
      assert IsPending(row, Latest(start), s.retry);
      assert q != r;
    }
  }

  /** Every last record was written under the same parameters for a selected row with this ground truth. */
  ghost predicate MayResume(log: seq<Record>, rows: seq<Row>, meta: Meta) {
    forall i, row :: IsLast(log, i, row) ==>
      && log[i].meta == meta
      && exists r :: 0 <= r < |rows| && rows[r].sourceRow == row && rows[r].groundTruth == log[i].groundTruth
  }

  lemma {:induction false} ResumableIff(log: seq<Record>, rows: seq<Row>, meta: Meta)
    ensures Resumable(Latest(log), rows, meta) <==> MayResume(log, rows, meta)
  {
    if Resumable(Latest(log), rows, meta) {
      forall i, row | IsLast(log, i, row)
        ensures log[i].meta == meta
        ensures exists r :: 0 <= r < |rows| && rows[r].sourceRow == row && rows[r].groundTruth == log[i].groundTruth
      {
        LatestIsLast(log, row);
        var j :| IsLast(log, j, row) && log[j] == Latest(log)[row];
        LastIsUnique(log, i, j, row);
      }
    }
    if MayResume(log, rows, meta) {
      forall k | k in Latest(log)
        ensures Latest(log)[k].meta == meta
        ensures exists r ::
          0 <= r < |rows| && rows[r].sourceRow == k && rows[r].groundTruth == Latest(log)[k].groundTruth
      {
        LatestIsLast(log, k);
        var j :| IsLast(log, j, k) && log[j] == Latest(log)[k];
      }
    }
  }

  /** What `main` leaves behind. It goes on exactly when every row's last record fits the parameters;
      then exactly the rows that have to run get one new record each, and a log of the same parameters
      ends good and complete. A refused log is left as it is, apart from an overwrite. */
  ghost predicate Invoked(before: seq<Record>, after: seq<Record>, ok: bool, rows: seq<Row>, meta: Meta,
        overwrite: bool, retry: bool) {
    var start := if overwrite then [] else before;
    && (ok <==> MayResume(start, rows, meta))
    && (ok ==> RanExactly(start, after, rows, meta, retry))
    && (!ok ==> after == start)
    && (GoodLog(start, rows, meta) ==> ok && GoodLog(after, rows, meta) && Complete(after, rows, meta))
  }

  lemma {:induction false} FinishedInvocation(before: seq<Record>, s: Session, rows: seq<Row>, meta: Meta)
    requires WellSelected(rows) && PossibleSession(before, s, rows) && FinishedSession(before, s, rows)
    requires Resumable(Latest(StartLog(before, s)), rows, meta)
    ensures Invoked(before, AfterSession(before, s, meta), true, rows, meta, s.overwrite, s.retry)
  {
    var start := StartLog(before, s);
    ResumableIff(start, rows, meta);
    FinishedRunsExactly(before, s, rows, meta);
    if GoodLog(start, rows, meta) {
      var t := s.(overwrite := false);
      assert AfterSession(start, t, meta) == AfterSession(before, s, meta);
      SessionKeepsGood(start, t, rows, meta);
      FinishedIsComplete(start, t, rows, meta);
    }
  }

  lemma {:induction false} RefusedInvocation(before: seq<Record>, rows: seq<Row>, meta: Meta, overwrite: bool,
      retry: bool)
    requires !Resumable(Latest(if overwrite then [] else before), rows, meta)
    ensures Invoked(before, if overwrite then [] else before, false, rows, meta, overwrite, retry)
  {
    var start := if overwrite then [] else before;
    ResumableIff(start, rows, meta);
    if GoodLog(start, rows, meta) {
      GoodLogResumes(start, rows, meta);
      assert false;
    }
  }

  /** A successful call for the row alone gives its first prediction and no error, any other an error
      and no prediction. */
  ghost predicate LocalOutcome(row: Row, engine: Engine, r: Record) {
    if engine([row]).Some? && |engine([row]).value| > 0 then r.prediction == engine([row]).value[0] && r.error == ""
    else r.prediction == "" && r.error != ""
  }

  lemma {:induction false} SameSelectedRow(rows: seq<Row>, r: nat, row: Row)
    requires WellSelected(rows) && row in rows && r < |rows| && rows[r].sourceRow == row.sourceRow
    ensures rows[r] == row
  {
    var q :| 0 <= q < |rows| && rows[q] == row;
    assert q == r;
  }

  /** Every record from position `first` on holds what its row's own call gave. */
  ghost predicate LocalOutcomes(log: seq<Record>, first: nat, rows: seq<Row>, engine: Engine) {
    forall x, r :: first <= x < |log| && 0 <= r < |rows| && rows[r].sourceRow == log[x].sourceRow ==>
      LocalOutcome(rows[r], engine, log[x])
  }

  /** Every record from position `first` on holds what the call for its own row gave. */
  ghost predicate RemoteOutcomes(log: seq<Record>, first: nat, rows: seq<Row>, generateOne: Row -> Result2) {
    forall x, r :: first <= x < |log| && 0 <= r < |rows| && rows[r].sourceRow == log[x].sourceRow ==>
      log[x].prediction == generateOne(rows[r]).prediction && log[x].error == generateOne(rows[r]).error
  }

  lemma {:induction false} RemoteResults(start: seq<Record>, done: seq<Row>, rows: seq<Row>, meta: Meta,
      generateOne: Row -> Result2, results: seq<Result2>)
    requires WellSelected(rows) && forall i :: 0 <= i < |done| ==> done[i] in rows
    requires |results| == |done| && forall i :: 0 <= i < |done| ==> results[i] == generateOne(done[i])
    ensures RemoteOutcomes(start + Records(meta, done, results), |start|, rows, generateOne)
  {
    var added := Records(meta, done, results);
    var log := start + added;
    forall x, r | |start| <= x < |log| && 0 <= r < |rows| && rows[r].sourceRow == log[x].sourceRow
      ensures log[x].prediction == generateOne(rows[r]).prediction && log[x].error == generateOne(rows[r]).error
    {
      var i := x - |start|;
      assert log[x] == added[i];
      SameSelectedRow(rows, r, done[i]);
    }
  }

  lemma {:induction false} LocalResults(start: seq<Record>, pending: seq<Row>, rows: seq<Row>, meta: Meta,
      batchSize: nat, engine: Engine)
    requires batchSize > 0 && RowByRow(engine) && WellSelected(rows)
    requires forall i :: 0 <= i < |pending| ==> pending[i] in rows
    ensures LocalOutcomes(start + Records(meta, pending, AllResults(pending, batchSize, engine)), |start|, rows, engine)
  {
    var results := AllResults(pending, batchSize, engine);
    var added := Records(meta, pending, results);
    var log := start + added;
    forall x, r | |start| <= x < |log| && 0 <= r < |rows| && rows[r].sourceRow == log[x].sourceRow
      ensures LocalOutcome(rows[r], engine, log[x])
    {
      var i := x - |start|;
      assert log[x] == added[i];
      SameSelectedRow(rows, r, pending[i]);
      BatchingDoesNotShow(pending, batchSize, engine, i);
    }
  }

  /** Reading and checking what is there; the rows still to do, or a refusal. */
  method Resume(file: CheckpointFile, rows: seq<Row>, meta: Meta, overwrite: bool, retry: bool)
    returns (ok: bool, pending: seq<Row>)
    modifies file
    ensures file.lines == if overwrite then [] else old(file.lines)
    ensures ok <==> Resumable(Latest(file.lines), rows, meta)
    ensures ok ==> pending == Pending(old(file.lines), rows, overwrite, retry)
  {
    if overwrite {
      file.lines := [];
    }
    WrittenParses(file.lines);
    var readable, keys, records := ReadCheckpoint(Written(file.lines));
    ok := Resumable(records, rows, meta);
    pending := if ok then PendingRows(rows, records, retry) else [];
  }

  /** From position `first` on the records stand in the order of the selection. */
  ghost predicate WrittenInOrder(log: seq<Record>, first: nat) {
    forall x, y :: first <= x < y < |log| ==> log[x].order < log[y].order
  }

  lemma {:induction false} LocalOrder(start: seq<Record>, rows: seq<Row>, records: map<int, Record>, retry: bool,
      meta: Meta, results: seq<Result2>)
    requires WellSelected(rows) && |results| == |PendingRows(rows, records, retry)|
    ensures WrittenInOrder(start + Records(meta, PendingRows(rows, records, retry), results), |start|)
  {
    var p := PendingRows(rows, records, retry);
    var added := Records(meta, p, results);
    PendingInOrder(rows, records, retry);
    forall x, y | |start| <= x < y < |start + added| ensures (start + added)[x].order < (start + added)[y].order {
      assert (start + added)[x] == added[x - |start|] && (start + added)[y] == added[y - |start|];
      assert p[x - |start|].order < p[y - |start|].order;
    }
  }

  /** A local invocation. */
  method InvokeLocal(file: CheckpointFile, rows: seq<Row>, meta: Meta, overwrite: bool, retry: bool,
      batchSize: nat, engine: Engine) returns (ok: bool)
    requires WellSelected(rows) && batchSize > 0
    modifies file
    ensures Invoked(old(file.lines), file.lines, ok, rows, meta, overwrite, retry)
    ensures ok && RowByRow(engine) ==>
      LocalOutcomes(file.lines, if overwrite then 0 else |old(file.lines)|, rows, engine)
    ensures ok ==> WrittenInOrder(file.lines, if overwrite then 0 else |old(file.lines)|)
  {
    ghost var before := file.lines;
    var pending;
    ok, pending := Resume(file, rows, meta, overwrite, retry);
    if ok {
      ghost var results := AllResults(pending, batchSize, engine);
      IdentityReindex(pending);
      WholeRunIsFinished(before, rows, overwrite, retry, InOrder(|pending|), results);
      FinishedInvocation(before, Session(overwrite, retry, pending, results), rows, meta);
      if RowByRow(engine) {
        LocalResults(file.lines, pending, rows, meta, batchSize, engine);
      }
      LocalOrder(file.lines, rows, Latest(file.lines), retry, meta, results);
      RunLocal(file, pending, meta, batchSize, engine);
    } else {
      RefusedInvocation(before, rows, meta, overwrite, retry);
    }
  }

  /** A remote invocation, its calls completing in any order. */
  method InvokeRemote(file: CheckpointFile, rows: seq<Row>, meta: Meta, overwrite: bool, retry: bool,
      generateOne: Row -> Result2, completionOf: nat -> seq<nat>) returns (ok: bool)
    requires WellSelected(rows)
    requires forall n: nat :: Injective(completionOf(n)) && Below(completionOf(n), n) && |completionOf(n)| == n
    modifies file
    ensures Invoked(old(file.lines), file.lines, ok, rows, meta, overwrite, retry)
    ensures ok ==> RemoteOutcomes(file.lines, if overwrite then 0 else |old(file.lines)|, rows, generateOne)
  {
    ghost var before := file.lines;
    var pending;
    ok, pending := Resume(file, rows, meta, overwrite, retry);
    if ok {
      var completion := completionOf(|pending|);
      ghost var done := Reindex(pending, completion);
      ghost var results := seq(|done|, i requires 0 <= i < |done| => generateOne(done[i]));
      WholeRunIsFinished(before, rows, overwrite, retry, completion, results);
      FinishedInvocation(before, Session(overwrite, retry, done, results), rows, meta);
      RemoteResults(file.lines, done, rows, meta, generateOne, results);
      RunRemote(file, pending, meta, generateOne, completion);
    } else {
      RefusedInvocation(before, rows, meta, overwrite, retry);
    }
  }

  // ---------------------------------------------------------------- the strict loader

  datatype LoadError = Unreadable | Empty | Incomplete | Mismatch | BadOrder

  predicate MetaFits(r: Record, mode: string, name: string, backend: string) {
    r.meta.schemaVersion == SCHEMA_VERSION && r.meta.mode == mode && r.meta.name == name && r.meta.backend == backend
  }

  /** The sample orders of the latest records, key by key. */
  function OrdersOf(keys: seq<int>, records: map<int, Record>): seq<int> {
    seq(|keys|, i requires 0 <= i < |keys| => if keys[i] in records then records[keys[i]].order else -1)
  }

  ghost predicate Distinct(xs: seq<int>) {
    forall i, j :: 0 <= i < j < |xs| ==> xs[i] != xs[j]
  }

  ghost predicate InRange(xs: seq<int>, n: int) {
    forall i :: 0 <= i < |xs| ==> 0 <= xs[i] < n
  }

  ghost predicate AllFit(keys: seq<int>, records: map<int, Record>, mode: string, name: string, backend: string) {
    forall i :: 0 <= i < |keys| && keys[i] in records ==> MetaFits(records[keys[i]], mode, name, backend)
  }

  /** What the loader accepts under a file name that says `mode` and `name`. */
  ghost predicate Acceptable(log: seq<Record>, mode: string, name: string) {
    var keys, records := FirstSeen(log), Latest(log);
    && keys != [] && keys[0] in records
    && var first := records[keys[0]];
       && first.meta.numSamples == |keys| && AllFit(keys, records, mode, name, first.meta.backend)
       && Distinct(OrdersOf(keys, records)) && InRange(OrdersOf(keys, records), |keys|)
  }

  /** Python's set(range(n)). */
  function RangeSet(n: nat): (r: set<int>)
    ensures forall x :: x in r <==> 0 <= x < n
  {
    if n == 0 then {} else RangeSet(n - 1) + {n - 1}
  }

  /** Distinct integers fill the range of their count exactly when all of them lie in it. */
  lemma {:induction false} FullRangeIff(xs: seq<int>, seen: set<int>)
    requires Distinct(xs) && forall x :: x in seen <==> x in xs
    ensures seen == RangeSet(|xs|) <==> InRange(xs, |xs|)
  {
    if InRange(xs, |xs|) {
      var ys: seq<nat> := seq(|xs|, i requires 0 <= i < |xs| => xs[i]);
      Pigeonhole(ys, |xs|);
      assert xs == ys;
      forall x | 0 <= x < |xs| ensures x in xs {
        assert x in ys;
      }
    } else if seen == RangeSet(|xs|) {
      forall i | 0 <= i < |xs| ensures 0 <= xs[i] < |xs| {
        assert xs[i] in seen;
      }
      assert false;
    }
  }

  method LoadModelRun(lines: seq<Line>, mode: string, name: string) returns (r: Result<map<int, Record>, LoadError>)
    ensures r.Ok? <==> Readable(lines) && Acceptable(Parsed(lines), mode, name)
    ensures r.Ok? ==> r.value == Latest(Parsed(lines))
    ensures r == Err(Unreadable) <==> !Readable(lines)
    ensures r == Err(Empty) <==> Readable(lines) && Parsed(lines) == []
  {
    var ok, keys, records := ReadCheckpoint(lines);
    if !ok {
      return Err(Unreadable);
    }
    if |keys| == 0 {
      return Err(Empty);
    }
    assert keys[0] in keys;
    var first := records[keys[0]];
    var expected := first.meta.numSamples;
    if expected <= 0 || |keys| != expected {
      return Err(Incomplete);
    }
    forall i | 0 <= i < |keys| ensures keys[i] in records {
      assert keys[i] in keys;
    }
    var checked := CheckRecords(keys, records, mode, name, first.meta.backend);
    match checked {
      case Err(e) => return Err(e);
      case Ok(orders) =>
        FullRangeIff(OrdersOf(keys, records), orders);
        if orders != RangeSet(expected) {
          return Err(BadOrder);
        }
        return Ok(records);
    }
  }

  /** The loop over the records: metadata of each, and no sample order twice. */
  method CheckRecords(keys: seq<int>, records: map<int, Record>, mode: string, name: string, backend: string)
    returns (r: Result<set<int>, LoadError>)
    requires forall i :: 0 <= i < |keys| ==> keys[i] in records
    ensures r.Ok? <==> AllFit(keys, records, mode, name, backend) && Distinct(OrdersOf(keys, records))
    ensures r.Err? ==> r.error == Mismatch
    ensures r.Ok? ==> forall x :: x in r.value <==> x in OrdersOf(keys, records)
  {
    var orders: set<int> := {};
    ghost var xs := OrdersOf(keys, records);
    for i := 0 to |keys|
      invariant forall k :: 0 <= k < i ==> keys[k] in records && MetaFits(records[keys[k]], mode, name, backend)
      invariant forall x :: x in orders <==> x in xs[..i]
      invariant Distinct(xs[..i])
    {
      var record := records[keys[i]];
      if !MetaFits(record, mode, name, backend) {
        return Err(Mismatch);
      }
      assert xs[..i + 1] == xs[..i] + [record.order];
      if record.order in orders {
        ghost var k :| 0 <= k < i && xs[..i][k] == record.order;
        assert xs[k] == xs[i];
        return Err(Mismatch);
      }
      orders := orders + {record.order};
    }
    assert xs[..|keys|] == xs;
    return Ok(orders);
  }

  lemma {:induction false} KeysAreRows(log: seq<Record>, rows: seq<Row>, meta: Meta)
    requires WellSelected(rows) && Complete(log, rows, meta)
    ensures |FirstSeen(log)| == |rows|
  {
    var keys := FirstSeen(log);
    var sources := seq(|rows|, i requires 0 <= i < |rows| => rows[i].sourceRow);
    forall x ensures x in keys <==> x in sources {
      if x in keys {
        assert x in Latest(log);
        var i :| 0 <= i < |rows| && rows[i].sourceRow == x;
        assert sources[i] == x;
      }
      if x in sources {
        var i :| 0 <= i < |sources| && sources[i] == x;
        assert rows[i].sourceRow == x;
      }
    }
    SameMembersSameLength(keys, sources);
  }

  lemma {:induction false} SameMembersSameLength(xs: seq<int>, ys: seq<int>)
    requires forall i, j :: 0 <= i < j < |xs| ==> xs[i] != xs[j]
    requires forall i, j :: 0 <= i < j < |ys| ==> ys[i] != ys[j]
    requires forall x :: x in xs <==> x in ys
    ensures |xs| == |ys|
  {
    ElementsCard(xs);
    ElementsCard(ys);
    assert Elements(xs) == Elements(ys);
  }

  /** A complete log is accepted by the loader under the name its parameters give the file. */
  lemma {:induction false} CompleteIsAcceptable(log: seq<Record>, rows: seq<Row>, meta: Meta)
    requires WellSelected(rows) && Complete(log, rows, meta)
    requires |rows| > 0 && meta.numSamples == |rows| && meta.schemaVersion == SCHEMA_VERSION
    ensures Acceptable(log, meta.mode, meta.name)
  {
    var keys, records := FirstSeen(log), Latest(log);
    KeysAreRows(log, rows, meta);
    forall i | 0 <= i < |keys| ensures keys[i] in records && RecordOfRow(records[keys[i]], rows, meta, keys[i]) {
      assert keys[i] in keys;
      var k :| 0 <= k < |rows| && rows[k].sourceRow == keys[i];
    }
    var xs := OrdersOf(keys, records);
    forall i, j | 0 <= i < j < |keys| ensures xs[i] != xs[j] {
      assert keys[i] != keys[j];
      assert RecordOfRow(records[keys[i]], rows, meta, keys[i]) && RecordOfRow(records[keys[j]], rows, meta, keys[j]);
    }
  }

  ghost predicate RecordOfRow(r: Record, rows: seq<Row>, meta: Meta, key: int) {
    r.meta == meta && 0 <= r.order < |rows| && rows[r.order].sourceRow == key
  }

  /** From an empty file, any history whose last invocation finished is accepted by the loader. */
  lemma {:induction false} FinishedHistoryLoads(ss: seq<Session>, rows: seq<Row>, meta: Meta)
    requires WellSelected(rows) && |rows| > 0 && meta.numSamples == |rows| && meta.schemaVersion == SCHEMA_VERSION
    requires ss != [] && PossibleRun([], ss, rows, meta) && LastFinished([], ss, rows, meta)
    ensures var lines := Written(LogAfter([], ss, rows, meta));
      Readable(lines) && Acceptable(Parsed(lines), meta.mode, meta.name)
  {
    EveryHistoryIsGood([], ss, rows, meta);
    WrittenParses(LogAfter([], ss, rows, meta));
    CompleteIsAcceptable(LogAfter([], ss, rows, meta), rows, meta);
  }
}
