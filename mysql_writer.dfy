/**
 * The match-table writer: a bounded buffer of match records that is turned
 * into one multi-row `INSERT` when it overflows or when `run_inserts` is
 * called, and the `DELETE` that clears a report date. The database is the
 * sequence of `(sql, params)` calls that reach it.
 */
module MysqlWriting {
  import opened Text
  import opened Wrappers
  import opened Records

  /** The default `_fq_friendly_vendor_match`. */
  const DefaultTable: string := "friendly_vendor_match"

  const WorkerIdField: string := "_worker_id"

  /** `_fields`: the target columns, in the order their values are sent. */
  const Fields: seq<string> := [
    "doximity_user_id",
    "friendly_vendor_user_id",
    "is_doximity_user_active",
    "is_friendly_vendor_user_active",
    "classification_match",
    "location_match",
    "specialty_match",
    "report_date",
    "doximity_last_active_date",
    "friendly_vendor_last_active_date",
    "_worker_id",
    "_friendly_vendor_page",
    "_friendly_vendor_row"]

  type Positive = n: int | n > 0 witness 1

  /** The two statements the writer sends: a multi-row insert of `count`
      records, and the delete of a report date, restricted to the writer's
      own rows or not. Their text is `Sql`. */
  datatype Statement =
    | InsertRows(table: string, count: nat)
    | DeleteForDate(table: string, ownRowsOnly: bool)

  /** One `cursor.execute(Sql(statement), params)` (followed by `commit`). */
  datatype SqlCall = SqlCall(statement: Statement, params: seq<Value>)

  /** `AttributeError` (no queue yet) and `KeyError` (a record lacks a field). */
  datatype WriteError = NoQueue | MissingField(name: string)

  /** Everything the writer's methods read or change. `capacity` is the
      queue's `maxsize`, `None` before `init_queue`. */
  datatype WriterState = WriterState(
    capacity: Option<Positive>,
    buffer: seq<Row>,
    workerId: int,
    table: string,
    dryRun: bool,
    executed: seq<SqlCall>)

  /** `match_record["_worker_id"] = worker_id` */
  function Stamp(r: Row, workerId: int): Row {
    r[WorkerIdField := IntValue(workerId)]
  }

  /** The record has a value for every configured field. */
  predicate Complete(r: Row) {
    forall k :: 0 <= k < |Fields| ==> Fields[k] in r
  }

  /** The position of the first field from `k` on that `r` lacks
      (`|Fields|` if there is none). */
  function MissingFrom(r: Row, k: nat): (n: nat)
    requires k <= |Fields|
    ensures k <= n <= |Fields|
    ensures forall i :: k <= i < n ==> Fields[i] in r
    ensures n < |Fields| ==> Fields[n] !in r
    decreases |Fields| - k
  {
    if k == |Fields| then k
    else if Fields[k] !in r then k
    else MissingFrom(r, k + 1)
  }

  /** `[match_record[f] for f in _fields]` */
  function FieldValues(r: Row): (v: seq<Value>)
    requires Complete(r)
    ensures |v| == |Fields|
    ensures forall k :: 0 <= k < |Fields| ==> v[k] == r[Fields[k]]
  {
    seq(|Fields|, k requires 0 <= k < |Fields| => r[Fields[k]])
  }

  /** How many buffered records, from the front, survive stamping with
      every field present. */
  function CompletePrefix(rows: seq<Row>, workerId: int): (n: nat)
    ensures n <= |rows|
    ensures forall i :: 0 <= i < n ==> Complete(Stamp(rows[i], workerId))
    ensures n < |rows| ==> !Complete(Stamp(rows[n], workerId))
  {
    if rows == [] || !Complete(Stamp(rows[0], workerId)) then 0
    else 1 + CompletePrefix(rows[1..], workerId)
  }

  predicate AllComplete(rows: seq<Row>, workerId: int) {
    forall i :: 0 <= i < |rows| ==> Complete(Stamp(rows[i], workerId))
  }

  /** The parameter list of the insert: each stamped record's values in
      `_fields` order, record after record. It is only sent when every
      record is complete (`AllComplete`); an incomplete record would
      contribute nothing. */
  function InsertParams(rows: seq<Row>, workerId: int): seq<Value>
  {
    if rows == [] then []
    else
      var last := Stamp(rows[|rows| - 1], workerId);
      InsertParams(rows[..|rows| - 1], workerId) + (if Complete(last) then FieldValues(last) else [])
  }

  /** `"(%s, %s, ...)"` with one `%s` per field. */
  function Placeholders(): string {
    "(" + Join(", ", Repeat("%s", |Fields|)) + ")"
  }

  function InsertSql(table: string, count: nat): string {
    "INSERT INTO " + table + " (" + Join(", ", Fields) + ") values \n"
      + Join(",\n", Repeat(Placeholders(), count))
  }

  function DeleteSql(table: string): string {
    "\n              delete from " + table + "\n               where report_date = %s\n        "
  }

  /** The text sent for a statement. */
  function Sql(s: Statement): string {
    match s
    case InsertRows(table, count) => InsertSql(table, count)
    case DeleteForDate(table, ownRowsOnly) =>
      if ownRowsOnly then DeleteSql(table) + " and _worker_id = %s" else DeleteSql(table)
  }

  function InsertCall(table: string, rows: seq<Row>, workerId: int): SqlCall
  {
    SqlCall(InsertRows(table, |rows|), InsertParams(rows, workerId))
  }

  /** The statement `remove_records_for_date` runs: a worker id of 0 is
      falsy in Python. */
  function DeleteCall(table: string, dateString: string, workerId: int): SqlCall {
    if workerId != 0 then SqlCall(DeleteForDate(table, true), [StrValue(dateString), IntValue(workerId)])
    else SqlCall(DeleteForDate(table, false), [StrValue(dateString)])
  }

  /** `_execute`: in dry run nothing reaches the database. */
  function Execute(w: WriterState, call: SqlCall): seq<SqlCall> {
    if w.dryRun then w.executed else w.executed + [call]
  }

  /** The state after `run_inserts`, and the error it raises. */
  function AfterRunInserts(w: WriterState): (WriterState, Option<WriteError>) {
    if w.capacity.None? then (w, Some(NoQueue))
    else
      var n := CompletePrefix(w.buffer, w.workerId);
      if n < |w.buffer| then
        var bad := Stamp(w.buffer[n], w.workerId);
        (w.(buffer := w.buffer[n + 1..]), Some(MissingField(Fields[MissingFrom(bad, 0)])))
      else if w.buffer == [] then (w, None)
      else (w.(buffer := [], executed := Execute(w, InsertCall(w.table, w.buffer, w.workerId))), None)
  }

  /** The state after `add_record(rec)`, and the error it raises. A full
      queue is drained first; the record is then buffered. */
  function AfterAddRecord(w: WriterState, rec: Row): (WriterState, Option<WriteError>) {
    if w.capacity.None? then (w, Some(NoQueue))
    else if |w.buffer| < w.capacity.value then (w.(buffer := w.buffer + [rec]), None)
    else
      var (drained, err) := AfterRunInserts(w);
      if err.Some? then (drained, err)
      else (drained.(buffer := drained.buffer + [rec]), None)
  }

  /** `add_record` for each of `recs` in turn, stopping at the first error. */
  function AfterAddRecords(w: WriterState, recs: seq<Row>): (WriterState, Option<WriteError>)
    decreases |recs|
  {
    if recs == [] then (w, None)
    else
      var (next, err) := AfterAddRecord(w, recs[0]);
      if err.Some? then (next, err) else AfterAddRecords(next, recs[1..])
  }

  /** The buffer never holds more than the queue's `maxsize`. */
  predicate Bounded(w: WriterState) {
    w.capacity.Some? ==> |w.buffer| <= w.capacity.value
  }

  // ---------------------------------------------------------------------
  // Properties of the insert statement

  /** The insert parameters hold, for record `i` and field `k`, the value of
      field `k` of stamped record `i` at position `13 * i + k`. */
  lemma {:induction false} InsertParamsLayout(rows: seq<Row>, workerId: int)
    requires AllComplete(rows, workerId)
    ensures |InsertParams(rows, workerId)| == 13 * |rows|
    ensures forall i, k :: 0 <= i < |rows| && 0 <= k < 13 ==>
      InsertParams(rows, workerId)[13 * i + k] == Stamp(rows[i], workerId)[Fields[k]]
    decreases |rows|
  {
    if rows != [] {
      var n := |rows| - 1;
      var init := rows[..n];
      AllCompleteSlice(rows, workerId, 0, n);
      assert rows[0..n] == init;
      InsertParamsLayout(init, workerId);
      assert rows == init + [rows[n]];
      LayoutStep(init, rows[n], workerId);
    }
  }

  /** `InsertParamsLayout` for one more record. */
  lemma LayoutStep(init: seq<Row>, r: Row, workerId: int)
    requires Complete(Stamp(r, workerId))
    requires |InsertParams(init, workerId)| == 13 * |init|
    requires forall i, k :: 0 <= i < |init| && 0 <= k < 13 ==>
      Fields[k] in Stamp(init[i], workerId)
      && InsertParams(init, workerId)[13 * i + k] == Stamp(init[i], workerId)[Fields[k]]
    ensures var rows := init + [r];
      |InsertParams(rows, workerId)| == 13 * |rows|
      && forall i, k :: 0 <= i < |rows| && 0 <= k < 13 ==>
        Fields[k] in Stamp(rows[i], workerId)
        && InsertParams(rows, workerId)[13 * i + k] == Stamp(rows[i], workerId)[Fields[k]]
  {
    assert |Fields| == 13;
    var rows := init + [r];
    assert rows[..|rows| - 1] == init;
    var front := InsertParams(init, workerId);
    var last := FieldValues(Stamp(r, workerId));
    var p := front + last;
    assert p == InsertParams(rows, workerId);
    forall i, k | 0 <= i < |rows| && 0 <= k < 13
      ensures Fields[k] in Stamp(rows[i], workerId) && p[13 * i + k] == Stamp(rows[i], workerId)[Fields[k]]
    {
      if i < |init| {
        assert rows[i] == init[i];
        assert 13 * i + k < 13 * |init|;
      } else {
        assert 13 * i + k == |front| + k;
      }
    }
  }

  /** Every parameter row carries the writer's worker id in the
      `_worker_id` column. */
  lemma WorkerIdInEveryRow(rows: seq<Row>, workerId: int, i: int)
    requires AllComplete(rows, workerId) && 0 <= i < |rows|
    ensures 13 * i + 10 < |InsertParams(rows, workerId)|
    ensures InsertParams(rows, workerId)[13 * i + 10] == IntValue(workerId)
  {
    InsertParamsLayout(rows, workerId);
    var stamped := Stamp(rows[i], workerId);
    assert InsertParams(rows, workerId)[13 * i + 10] == stamped[Fields[10]];
    assert Fields[10] == WorkerIdField;
    assert stamped[WorkerIdField] == IntValue(workerId);
  }

  lemma {:induction false} InsertParamsAppend(a: seq<Row>, b: seq<Row>, workerId: int)
    ensures InsertParams(a + b, workerId) == InsertParams(a, workerId) + InsertParams(b, workerId)
    decreases |b|
  {
    if b != [] {
      var b0 := b[..|b| - 1];
      InsertParamsAppend(a, b0, workerId);
      assert (a + b)[..|a + b| - 1] == a + b0;
      assert (a + b)[|a + b| - 1] == b[|b| - 1];
    } else {
      assert a + b == a;
    }
  }

  lemma JoinRepeatStep(sep: string, x: string, n: nat)
    requires n >= 1
    ensures Join(sep, Repeat(x, n + 1)) == x + sep + Join(sep, Repeat(x, n))
  {
    assert Repeat(x, n + 1)[1..] == Repeat(x, n);
  }

  lemma SevenPlaceholders()
    ensures Join(", ", Repeat("%s", 7)) == "%s, %s, %s, %s, %s, %s, %s"
  {
    var sep, p := ", ", "%s";
    assert Join(sep, Repeat(p, 1)) == "%s";
    JoinRepeatStep(sep, p, 1);
    assert Join(sep, Repeat(p, 2)) == "%s, %s";
    JoinRepeatStep(sep, p, 2);
    assert Join(sep, Repeat(p, 3)) == "%s, %s, %s";
    JoinRepeatStep(sep, p, 3);
    assert Join(sep, Repeat(p, 4)) == "%s, %s, %s, %s";
    JoinRepeatStep(sep, p, 4);
    assert Join(sep, Repeat(p, 5)) == "%s, %s, %s, %s, %s";
    JoinRepeatStep(sep, p, 5);
    assert Join(sep, Repeat(p, 6)) == "%s, %s, %s, %s, %s, %s";
    JoinRepeatStep(sep, p, 6);
    assert Join(sep, Repeat(p, 7)) == "%s, %s, %s, %s, %s, %s, %s";
  }

  lemma TenPlaceholders()
    ensures Join(", ", Repeat("%s", 10)) == "%s, %s, %s, %s, %s, %s, %s, %s, %s, %s"
  {
    var sep, p := ", ", "%s";
    SevenPlaceholders();
    JoinRepeatStep(sep, p, 7);
    assert Join(sep, Repeat(p, 8)) == "%s, %s, %s, %s, %s, %s, %s, %s";
    JoinRepeatStep(sep, p, 8);
    assert Join(sep, Repeat(p, 9)) == "%s, %s, %s, %s, %s, %s, %s, %s, %s";
    JoinRepeatStep(sep, p, 9);
  }

  /** The placeholder group for the thirteen columns. */
  lemma PlaceholdersText()
    ensures Placeholders() == "(" + "%s, %s, %s, %s, %s, %s, %s, %s, %s, %s, %s, %s, %s" + ")"
  {
    var sep, p := ", ", "%s";
    TenPlaceholders();
    JoinRepeatStep(sep, p, 10);
    assert Join(sep, Repeat(p, 11)) == "%s, %s, %s, %s, %s, %s, %s, %s, %s, %s, %s";
    JoinRepeatStep(sep, p, 11);
    assert Join(sep, Repeat(p, 12)) == "%s, %s, %s, %s, %s, %s, %s, %s, %s, %s, %s, %s";
    JoinRepeatStep(sep, p, 12);
    assert |Fields| == 13;
  }

  // ---------------------------------------------------------------------
  // Properties of run_inserts

  /** A successful `run_inserts` empties the buffer, sending every buffered
      record in one insert, in buffer order, unless the buffer was empty or
      the writer is in dry run. */
  lemma RunInsertsDrains(w: WriterState)
    requires w.capacity.Some?
    ensures var (after, err) := AfterRunInserts(w);
      (err.None? <==> AllComplete(w.buffer, w.workerId))
      && (err.None? ==>
            after.buffer == []
            && after == w.(buffer := [], executed := after.executed)
            && (w.buffer == [] || w.dryRun ==> after.executed == w.executed)
            && (w.buffer != [] && !w.dryRun ==>
                  after.executed == w.executed + [InsertCall(w.table, w.buffer, w.workerId)]))
  {
    var n := CompletePrefix(w.buffer, w.workerId);
    if n < |w.buffer| {
      assert !Complete(Stamp(w.buffer[n], w.workerId));
    }
  }

  /** A record lacking a configured field makes `run_inserts` raise
      `KeyError` for the first such field: the records before it and the
      record itself have left the buffer, the rest remain, and nothing is
      executed. `_worker_id` itself is never missing. */
  lemma RunInsertsKeyError(w: WriterState)
    requires w.capacity.Some? && !AllComplete(w.buffer, w.workerId)
    ensures var (after, err) := AfterRunInserts(w);
      var n := CompletePrefix(w.buffer, w.workerId);
      n < |w.buffer|
      && AllComplete(w.buffer[..n], w.workerId)
      && err.Some? && err.value.MissingField?
      && err.value.name in Fields && err.value.name != WorkerIdField
      && err.value.name !in w.buffer[n]
      && after.buffer == w.buffer[n + 1..]
      && after.executed == w.executed
  {
    var n := CompletePrefix(w.buffer, w.workerId);
    var bad := Stamp(w.buffer[n], w.workerId);
    var k := MissingFrom(bad, 0);
    assert k < |Fields|;
    assert forall i :: 0 <= i < n ==> w.buffer[..n][i] == w.buffer[i];
  }

  /** A `run_inserts` that raises nothing, as one state. */
  lemma RunInsertsResult(w: WriterState)
    requires w.capacity.Some? && AllComplete(w.buffer, w.workerId)
    ensures AfterRunInserts(w) ==
      (w.(buffer := [],
          executed := if w.buffer == [] then w.executed
                      else Execute(w, InsertCall(w.table, w.buffer, w.workerId))),
       None)
  {
    RunInsertsDrains(w);
  }

  /** The complete records at the front count towards the complete prefix. */
  lemma {:induction false} CompletePrefixAppend(front: seq<Row>, rest: seq<Row>, workerId: int)
    requires AllComplete(front, workerId)
    ensures CompletePrefix(front + rest, workerId) == |front| + CompletePrefix(rest, workerId)
    decreases |front|
  {
    if front == [] {
      assert front + rest == rest;
    } else {
      assert (front + rest)[1..] == front[1..] + rest;
      assert (front + rest)[0] == front[0];
      assert AllComplete(front[1..], workerId) by {
        forall i | 0 <= i < |front[1..]| ensures Complete(Stamp(front[1..][i], workerId)) {
          assert front[1..][i] == front[i + 1];
        }
      }
      CompletePrefixAppend(front[1..], rest, workerId);
    }
  }

  /** The first incomplete record `bad` sits right after the complete
      records `drained`. */
  lemma StopsAt(queue: seq<Row>, i: nat, workerId: int)
    requires i < |queue| && AllComplete(queue[..i], workerId) && !Complete(Stamp(queue[i], workerId))
    ensures CompletePrefix(queue, workerId) == i
  {
    var drained, rest := queue[..i], queue[i..];
    assert queue == drained + rest;
    assert rest[0] == queue[i];
    CompletePrefixAppend(drained, rest, workerId);
  }

  // ---------------------------------------------------------------------
  // Properties of add_record

  lemma AddRecordBounded(w: WriterState, rec: Row)
    requires Bounded(w)
    ensures Bounded(AfterAddRecord(w, rec).0)
  {
  }

  /** With capacity `N`, the first `N` records from an empty buffer are only
      buffered. */
  lemma {:induction false} FirstAddsOnlyBuffer(w: WriterState, recs: seq<Row>)
    requires w.capacity.Some? && |w.buffer| + |recs| <= w.capacity.value
    ensures AfterAddRecords(w, recs) == (w.(buffer := w.buffer + recs), None)
    decreases |recs|
  {
    if recs != [] {
      var next := w.(buffer := w.buffer + [recs[0]]);
      assert AfterAddRecord(w, recs[0]) == (next, None);
      FirstAddsOnlyBuffer(next, recs[1..]);
      assert next.buffer + recs[1..] == w.buffer + recs;
    } else {
      assert w.buffer + recs == w.buffer;
    }
  }

  /** The (N+1)-th record flushes the N buffered ones in one insert and is
      then buffered itself: no record is dropped. */
  lemma OverflowFlushes(w: WriterState, recs: seq<Row>)
    requires w.capacity.Some? && w.buffer == [] && |recs| == w.capacity.value + 1
    requires !w.dryRun && AllComplete(recs[..|recs| - 1], w.workerId)
    ensures var (after, err) := AfterAddRecords(w, recs);
      err.None?
      && after.executed == w.executed + [InsertCall(w.table, recs[..|recs| - 1], w.workerId)]
      && after.buffer == [recs[|recs| - 1]]
  {
    var n := |recs| - 1;
    var prefix := recs[..n];
    var last := recs[n];
    assert prefix + [last] == recs;
    AfterAddRecordsSplit(w, prefix, [last]);
    FirstAddsOnlyBuffer(w, prefix);
    var full := w.(buffer := prefix);
    assert w.buffer + prefix == prefix;
    assert AfterAddRecords(w, prefix) == (full, None);
    RunInsertsDrains(full);
    var flushed := full.(buffer := [], executed := w.executed + [InsertCall(w.table, prefix, w.workerId)]);
    assert AfterRunInserts(full) == (flushed, None);
    assert full.capacity.Some? && |full.buffer| == full.capacity.value;
    assert flushed.buffer + [last] == [last];
    assert AfterAddRecord(full, last) == (flushed.(buffer := [last]), None);
    assert AfterAddRecords(full, [last]) == AfterAddRecord(full, last);
  }

  lemma {:induction false} AfterAddRecordsSplit(w: WriterState, a: seq<Row>, b: seq<Row>)
    ensures var (mid, err) := AfterAddRecords(w, a);
      AfterAddRecords(w, a + b) == if err.Some? then (mid, err) else AfterAddRecords(mid, b)
    decreases |a|
  {
    if a != [] {
      assert (a + b)[0] == a[0];
      assert (a + b)[1..] == a[1..] + b;
      var (next, err) := AfterAddRecord(w, a[0]);
      if err.None? {
        AfterAddRecordsSplit(next, a[1..], b);
      }
    } else {
      assert a + b == b;
    }
  }

  /** Adding one more record after `a`: the last `add_record` runs on the
      state `a` left, and an error before it stops the run. */
  lemma AfterAddRecordsSnoc(w: WriterState, a: seq<Row>, rec: Row)
    ensures var (mid, err) := AfterAddRecords(w, a);
      AfterAddRecords(w, a + [rec]) == if err.Some? then (mid, err) else AfterAddRecord(mid, rec)
  {
    AfterAddRecordsSplit(w, a, [rec]);
    var mid := AfterAddRecords(w, a).0;
    var (next, err) := AfterAddRecord(mid, rec);
    assert [rec][1..] == [];
    assert AfterAddRecords(mid, [rec]) == (if err.Some? then (next, err) else AfterAddRecords(next, []));
  }

  /** The parameters sent by the calls made since `before`. */
  function SentSince(before: seq<SqlCall>, after: seq<SqlCall>): seq<Value>
    requires before <= after
  {
    AllParams(after[|before|..])
  }

  lemma SentSinceChain(c0: seq<SqlCall>, c1: seq<SqlCall>, c2: seq<SqlCall>)
    requires c0 <= c1 <= c2
    ensures c0 <= c2
    ensures SentSince(c0, c2) == SentSince(c0, c1) + SentSince(c1, c2)
  {
    assert c2[|c0|..] == c1[|c0|..] + c2[|c1|..];
    AllParamsAppend(c1[|c0|..], c2[|c1|..]);
  }

  lemma AllCompleteSlice(rows: seq<Row>, workerId: int, i: int, j: int)
    requires AllComplete(rows, workerId) && 0 <= i <= j <= |rows|
    ensures AllComplete(rows[i..j], workerId)
  {
    assert forall k :: 0 <= k < j - i ==> rows[i..j][k] == rows[i + k];
  }

  /** One `add_record` outside dry run: either the record is just buffered,
      or the full buffer goes out in one insert and the record starts the
      next batch. */
  lemma AddRecordStep(w: WriterState, rec: Row)
    requires w.capacity.Some? && !w.dryRun && AllComplete(w.buffer + [rec], w.workerId)
    ensures var (next, err) := AfterAddRecord(w, rec);
      err.None? && w.executed <= next.executed
      && ((next.buffer == w.buffer + [rec] && next.executed == w.executed)
          || (next.buffer == [rec] && AllComplete(w.buffer, w.workerId)
              && SentSince(w.executed, next.executed) == InsertParams(w.buffer, w.workerId)))
  {
    AllCompleteSlice(w.buffer + [rec], w.workerId, 0, |w.buffer|);
    assert (w.buffer + [rec])[0..|w.buffer|] == w.buffer;
    if |w.buffer| >= w.capacity.value {
      RunInsertsDrains(w);
      var call := InsertCall(w.table, w.buffer, w.workerId);
      assert AfterAddRecord(w, rec).0.executed == w.executed + [call];
      assert (w.executed + [call])[|w.executed|..] == [call];
      assert AllParams([call]) == call.params + AllParams([]);
    }
  }

  /** Going from calls `sent` to state `after` while writing the records
      `all` (those buffered before, then those added) lost nothing: `all` is
      the records `flushed` followed by those still buffered, and the calls
      made since carry exactly the parameters of `flushed`, oldest first. */
  predicate Conserves(all: seq<Row>, workerId: int, sent: seq<SqlCall>, after: WriterState,
                      flushed: seq<Row>)
  {
    all == flushed + after.buffer
    && sent <= after.executed
    && SentSince(sent, after.executed) == InsertParams(flushed, workerId)
  }

  /** One `add_record` outside dry run conserves the records. */
  lemma AddRecordConserves(w: WriterState, rec: Row)
    requires w.capacity.Some? && !w.dryRun && AllComplete(w.buffer + [rec], w.workerId)
    ensures var (next, err) := AfterAddRecord(w, rec);
      var all := w.buffer + [rec];
      err.None? && next.capacity == w.capacity && !next.dryRun && next.workerId == w.workerId
      && |next.buffer| <= |all|
      && Conserves(all, w.workerId, w.executed, next, all[..|all| - |next.buffer|])
  {
    AddRecordStep(w, rec);
    var next := AfterAddRecord(w, rec).0;
    var all := w.buffer + [rec];
    if next.buffer == all {
      assert all[..0] == [];
      assert w.executed[|w.executed|..] == [];
    } else {
      assert all[..|w.buffer|] == w.buffer;
    }
  }

  /** Conservation composes: adding `[rec]` and then `tail` conserves
      `buf + ([rec] + tail)`, with both flushes in order. */
  lemma ConservesChain(buf: seq<Row>, rec: Row, tail: seq<Row>, workerId: int,
                       sent: seq<SqlCall>, next: WriterState, after: WriterState,
                       flushed1: seq<Row>, flushed2: seq<Row>)
    requires Conserves(buf + [rec], workerId, sent, next, flushed1)
    requires Conserves(next.buffer + tail, workerId, next.executed, after, flushed2)
    ensures Conserves(buf + ([rec] + tail), workerId, sent, after, flushed1 + flushed2)
  {
    calc {
      buf + ([rec] + tail);
      (buf + [rec]) + tail;
      (flushed1 + next.buffer) + tail;
      flushed1 + (next.buffer + tail);
      flushed1 + (flushed2 + after.buffer);
      (flushed1 + flushed2) + after.buffer;
    }
    SentSinceChain(sent, next.executed, after.executed);
    InsertParamsAppend(flushed1, flushed2, workerId);
  }

  /** Writing `recs` outside dry run raises no error and loses nothing: the
      records no longer buffered were sent (`Conserves`). */
  lemma {:induction false} AddRecordsConserve(w: WriterState, recs: seq<Row>)
    requires w.capacity.Some? && !w.dryRun && AllComplete(w.buffer + recs, w.workerId)
    ensures var (after, err) := AfterAddRecords(w, recs);
      var all := w.buffer + recs;
      err.None? && |after.buffer| <= |all|
      && Conserves(all, w.workerId, w.executed, after, all[..|all| - |after.buffer|])
    decreases |recs|
  {
    var all := w.buffer + recs;
    if recs == [] {
      assert all == w.buffer && all[..0] == [];
      assert w.executed[|w.executed|..] == [];
    } else {
      var rec, tail := recs[0], recs[1..];
      var one := w.buffer + [rec];
      assert recs == [rec] + tail;
      assert all == one + tail;
      AllCompleteSlice(all, w.workerId, 0, |one|);
      assert all[0..|one|] == one;
      AddRecordConserves(w, rec);
      var next := AfterAddRecord(w, rec).0;
      var flushed1 := one[..|one| - |next.buffer|];
      assert one == flushed1 + next.buffer;
      assert AfterAddRecords(w, recs) == AfterAddRecords(next, tail);
      assert AllComplete(next.buffer + tail, w.workerId) by {
        SuffixAllComplete(flushed1, next.buffer, tail, w.workerId);
      }
      AddRecordsConserve(next, tail);
      var after := AfterAddRecords(next, tail).0;
      var mid := next.buffer + tail;
      var flushed2 := mid[..|mid| - |after.buffer|];
      ConservesChain(w.buffer, rec, tail, w.workerId, w.executed, next, after, flushed1, flushed2);
      assert all == (flushed1 + flushed2) + after.buffer;
      assert all[..|all| - |after.buffer|] == flushed1 + flushed2;
    }
  }

  /** The records after a complete front `f`, followed by `b`, are complete
      when `f + s + b` is. */
  lemma SuffixAllComplete(f: seq<Row>, s: seq<Row>, b: seq<Row>, workerId: int)
    requires AllComplete((f + s) + b, workerId)
    ensures AllComplete(s + b, workerId)
  {
    assert (f + s) + b == f + (s + b);
    AllCompleteSlice(f + (s + b), workerId, |f|, |f + (s + b)|);
    assert (f + (s + b))[|f|..|f + (s + b)|] == s + b;
  }

  /** All parameters sent by a sequence of calls, in order. */
  function AllParams(calls: seq<SqlCall>): seq<Value> {
    if calls == [] then [] else calls[0].params + AllParams(calls[1..])
  }

  lemma {:induction false} AllParamsAppend(a: seq<SqlCall>, b: seq<SqlCall>)
    ensures AllParams(a + b) == AllParams(a) + AllParams(b)
    decreases |a|
  {
    if a != [] {
      assert (a + b)[1..] == a[1..] + b;
      AllParamsAppend(a[1..], b);
    } else {
      assert a + b == b;
    }
  }

  // ---------------------------------------------------------------------
  // Properties of remove_records_for_date

  /** Worker 0 deletes the whole date; any other worker only its own rows. */
  lemma DeleteScope(table: string, dateString: string, workerId: int)
    ensures var call := DeleteCall(table, dateString, workerId);
      var base := "\n              delete from " + table + "\n               where report_date = %s\n        ";
      (workerId == 0 ==> Sql(call.statement) == base && call.params == [StrValue(dateString)])
      && (workerId != 0 ==>
            Sql(call.statement) == base + " and _worker_id = %s"
            && call.params == [StrValue(dateString), IntValue(workerId)])
  {
  }

  // ---------------------------------------------------------------------

  class MysqlWriter {
    var capacity: Option<Positive>
    var buffer: seq<Row>
    var workerId: int
    var table: string
    var dryRun: bool
    var executed: seq<SqlCall>

    function State(): WriterState
      reads this
    {
      WriterState(capacity, buffer, workerId, table, dryRun, executed)
    }

    constructor ()
      ensures State() == WriterState(None, [], 0, DefaultTable, false, [])
    {
      capacity := None;
      buffer := [];
      workerId := 0;
      table := DefaultTable;
      dryRun := false;
      executed := [];
    }

    /** `set_worker_id` */
    method SetWorkerId(id: int)
      modifies this
      ensures State() == old(State()).(workerId := id)
    {
      workerId := id;
    }

    /** `set_friendly_vendor_match_table` */
    method SetTable(name: string)
      modifies this
      ensures State() == old(State()).(table := name)
    {
      table := name;
    }

    /** `set_dry_run` */
    method SetDryRun(isDryRun: bool)
      modifies this
      ensures State() == old(State()).(dryRun := isDryRun)
    {
      dryRun := isDryRun;
    }

    /** `init_queue(batchsize)`: `ok` is false when `assert batchsize > 0`
        fails. A new, empty queue replaces any earlier one. */
    method InitQueue(batchsize: int) returns (ok: bool)
      modifies this
      ensures ok <==> batchsize > 0
      ensures ok ==> State() == old(State()).(capacity := Some(batchsize as Positive), buffer := [])
      ensures !ok ==> State() == old(State())
    {
      if batchsize <= 0 {
        return false;
      }
      capacity := Some(batchsize as Positive);
      buffer := [];
      return true;
    }

    /** `_execute(sql, params)` as a recorded call. */
    method ExecuteCall(call: SqlCall)
      modifies this
      ensures State() == old(State()).(executed := Execute(old(State()), call))
    {
      if dryRun {
        return;
      }
      executed := executed + [call];
    }

    /** `remove_records_for_date` */
    method RemoveRecordsForDate(dateString: string)
      modifies this
      ensures State() == old(State()).(executed := Execute(old(State()), DeleteCall(table, dateString, workerId)))
    {
      var sql := "\n              delete from " + table + "\n               where report_date = %s\n        ";
      var params := [StrValue(dateString)];
      var ownRowsOnly := workerId != 0;
      if ownRowsOnly {
        sql := sql + " and _worker_id = %s";
        params := params + [IntValue(workerId)];
        assert params == [StrValue(dateString), IntValue(workerId)];
      }
      var statement := DeleteForDate(table, ownRowsOnly);
      assert sql == Sql(statement);
      ExecuteCall(SqlCall(statement, params));
    }

    /** `run_inserts`: drains the queue (`DrainQueue`), then sends all the
        drained records in one insert, whose text is
        `InsertSql(table, |values|)`, unless there were none. */
    method RunInserts() returns (err: Option<WriteError>)
      modifies this
      ensures (State(), err) == AfterRunInserts(old(State()))
    {
      if capacity.None? {
        return Some(NoQueue);
      }
      ghost var w := State();
      var values, params, rest;
      values, params, rest, err := DrainQueue(buffer, workerId, Placeholders());
      buffer := rest;
      if err.Some? {
        return err;
      }
      RunInsertsResult(w);
      if values == [] {
        return None;
      }
      ExecuteCall(SqlCall(InsertRows(table, |values|), params));
    }

    /** `add_record(match_record)` */
    method AddRecord(rec: Row) returns (err: Option<WriteError>)
      modifies this
      ensures (State(), err) == AfterAddRecord(old(State()), rec)
    {
      if capacity.None? {
        return Some(NoQueue);
      }
      if |buffer| < capacity.value {
        buffer := buffer + [rec];
        return None;
      }
      err := RunInserts();
      if err.Some? {
        return err;
      }
      buffer := buffer + [rec];
    }
  }

  /** The loop of `run_inserts` over the queued records: each is stamped
      with `workerId`, contributes one `placeholders` group and its values,
      until the queue is empty or a record lacks a field. */
  method DrainQueue(queue: seq<Row>, workerId: int, placeholders: string)
    returns (values: seq<string>, params: seq<Value>, rest: seq<Row>, err: Option<WriteError>)
    ensures err.None? <==> AllComplete(queue, workerId)
    ensures err.None? ==>
      rest == [] && values == Repeat(placeholders, |queue|)
      && params == InsertParams(queue, workerId)
    ensures err.Some? ==>
      var n := CompletePrefix(queue, workerId);
      n < |queue| && rest == queue[n + 1..]
      && err == Some(MissingField(Fields[MissingFrom(Stamp(queue[n], workerId), 0)]))
  {
    values, params := [], [];
    var i := 0;
    while i < |queue|
      invariant 0 <= i <= |queue|
      invariant AllComplete(queue[..i], workerId)
      invariant values == Repeat(placeholders, i)
      invariant params == InsertParams(queue[..i], workerId)
    {
      var original := queue[i];
      var rec := original[WorkerIdField := IntValue(workerId)];
      ghost var drained := values;
      values := values + [placeholders];
      var args, missing := FieldArgs(rec);
      if missing < |Fields| {
        StopsAt(queue, i, workerId);
        return values, params, queue[i + 1..], Some(MissingField(Fields[missing]));
      }
      DrainStep(queue, i, workerId, placeholders, drained, params, args);
      params := params + args;
      i := i + 1;
    }
    assert queue[..i] == queue;
    return values, params, [], None;
  }

  /** One more complete record extends what has been drained by its
      placeholders group and its values. */
  lemma DrainStep(queue: seq<Row>, i: nat, workerId: int, placeholders: string,
                  values: seq<string>, params: seq<Value>, args: seq<Value>)
    requires i < |queue| && AllComplete(queue[..i], workerId)
    requires values == Repeat(placeholders, i) && params == InsertParams(queue[..i], workerId)
    requires Complete(Stamp(queue[i], workerId)) && args == FieldValues(Stamp(queue[i], workerId))
    ensures AllComplete(queue[..i + 1], workerId)
    ensures values + [placeholders] == Repeat(placeholders, i + 1)
    ensures params + args == InsertParams(queue[..i + 1], workerId)
  {
    PrefixSnoc(queue, i);
    AllCompleteSnoc(queue[..i], queue[i], workerId);
    InsertParamsSnoc(queue[..i], queue[i], workerId);
    RepeatSnoc(placeholders, i);
  }

  lemma PrefixSnoc<T>(s: seq<T>, i: nat)
    requires i < |s|
    ensures s[..i + 1] == s[..i] + [s[i]]
  {
  }

  lemma AllCompleteSnoc(rows: seq<Row>, row: Row, workerId: int)
    requires AllComplete(rows, workerId) && Complete(Stamp(row, workerId))
    ensures AllComplete(rows + [row], workerId)
  {
    assert forall j :: 0 <= j < |rows| ==> (rows + [row])[j] == rows[j];
  }

  lemma InsertParamsSnoc(rows: seq<Row>, row: Row, workerId: int)
    requires Complete(Stamp(row, workerId))
    ensures InsertParams(rows + [row], workerId) == InsertParams(rows, workerId) + FieldValues(Stamp(row, workerId))
  {
    assert (rows + [row])[..|rows|] == rows;
  }

  /** `[match_record[f] for f in _fields]` as the loop runs it: `KeyError`
      at the first field `rec` lacks, reported as `missing < |Fields|`. */
  method FieldArgs(rec: Row) returns (args: seq<Value>, missing: nat)
    ensures missing == MissingFrom(rec, 0)
    ensures missing == |Fields| <==> Complete(rec)
    ensures missing == |Fields| ==> args == FieldValues(rec)
  {
    args := [];
    var k := 0;
    while k < |Fields|
      invariant 0 <= k <= |Fields|
      invariant forall i :: 0 <= i < k ==> Fields[i] in rec
      invariant args == seq(k, i requires 0 <= i < k => rec[Fields[i]])
    {
      if Fields[k] !in rec {
        MissingFromSkips(rec, 0, k);
        return args, k;
      }
      args := args + [rec[Fields[k]]];
      k := k + 1;
    }
    return args, |Fields|;
  }

  lemma {:induction false} MissingFromSkips(r: Row, k: nat, n: nat)
    requires k <= n < |Fields|
    requires forall i :: k <= i < n ==> Fields[i] in r
    requires Fields[n] !in r
    ensures MissingFrom(r, k) == n
    decreases n - k
  {
    if k < n {
      MissingFromSkips(r, k + 1, n);
    }
  }

  lemma {:induction false} RepeatSnoc<T>(x: T, n: nat)
    ensures Repeat(x, n + 1) == Repeat(x, n) + [x]
  {
    if n > 0 {
      RepeatSnoc(x, n - 1);
    }
  }
}
