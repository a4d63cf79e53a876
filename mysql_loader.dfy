/**
 * The MySQL producer: keyset pagination over the join of `user` and
 * `user_practice`. Each query selects the rows strictly after a cursor
 * (lastname, id) in (lastname, id) order, at most `batchsize` of them; the
 * cursor then moves to the last row returned, and the loop ends when a
 * batch leaves the cursor's id where it was. The database is the join's
 * rows listed in its `order by user.lastname, user.id` order; the queue the
 * loader fills is the sequence `Run` returns.
 */
module MysqlLoading {
  import opened Wrappers
  import opened Text
  import opened Records

  /** The pagination cursor `(current_lastname, current_id)`. */
  datatype Cursor = Cursor(lastname: string, id: int)

  function CursorOf(r: MysqlUser): Cursor {
    Cursor(r.lastname, r.id)
  }

  /** The (lastname, id) order of `order by user.lastname, user.id`. */
  predicate Precedes(c: Cursor, d: Cursor) {
    Less(c.lastname, d.lastname) || (c.lastname == d.lastname && c.id < d.id)
  }

  lemma PrecedesIrreflexive(c: Cursor)
    ensures !Precedes(c, c)
  {
    LessIrreflexive(c.lastname);
  }

  lemma PrecedesTransitive(a: Cursor, b: Cursor, c: Cursor)
    requires Precedes(a, b) && Precedes(b, c)
    ensures Precedes(a, c)
  {
    if Less(a.lastname, b.lastname) && Less(b.lastname, c.lastname) {
      LessTransitive(a.lastname, b.lastname, c.lastname);
    }
  }

  lemma PrecedesAsymmetric(a: Cursor, b: Cursor)
    requires Precedes(a, b)
    ensures !Precedes(b, a)
  {
    if Less(a.lastname, b.lastname) {
      LessAsymmetric(a.lastname, b.lastname);
      if b.lastname == a.lastname {
        LessIrreflexive(a.lastname);
      }
    } else if Less(b.lastname, a.lastname) {
      LessIrreflexive(a.lastname);
    }
  }

  /** The `where` clause: `user.lastname > %s or (user.lastname = %s and
      user.id > %s)`. */
  predicate After(c: Cursor, r: MysqlUser) {
    Precedes(c, CursorOf(r))
  }

  /** The join's rows listed strictly in (lastname, id) order. */
  predicate Ordered(table: seq<MysqlUser>) {
    forall i, j :: 0 <= i < j < |table| ==> Precedes(CursorOf(table[i]), CursorOf(table[j]))
  }

  /** `user.id` is the primary key. */
  predicate DistinctIds(table: seq<MysqlUser>) {
    forall r, s :: r in table && s in table && r.id == s.id ==> r == s
  }

  /** The rows the `where` clause lets through, in table order. */
  function Selected(table: seq<MysqlUser>, c: Cursor): (s: seq<MysqlUser>)
    ensures |s| <= |table|
  {
    if table == [] then []
    else if After(c, table[0]) then [table[0]] + Selected(table[1..], c)
    else Selected(table[1..], c)
  }

  /** A row is selected exactly when it is in the table and after the cursor. */
  lemma {:induction false} SelectedMember(table: seq<MysqlUser>, c: Cursor, r: MysqlUser)
    ensures r in Selected(table, c) <==> r in table && After(c, r)
    decreases |table|
  {
    if table != [] {
      SelectedMember(table[1..], c, r);
      assert r in table <==> r == table[0] || r in table[1..];
    }
  }

  /** One execution of the loader's `select`: the first `batch` selected rows. */
  function Query(table: seq<MysqlUser>, c: Cursor, batch: int): (q: seq<MysqlUser>)
    requires batch > 0
  {
    var s := Selected(table, c);
    if |s| <= batch then s else s[..batch]
  }

  /** A query returns at most `batch` rows, all after the cursor, and they
      are the leading rows of the selection. */
  lemma QueryMeaning(table: seq<MysqlUser>, c: Cursor, batch: int)
    requires batch > 0
    ensures |Query(table, c, batch)| <= batch
    ensures Query(table, c, batch) <= Selected(table, c)
    ensures |Query(table, c, batch)| == batch || Query(table, c, batch) == Selected(table, c)
    ensures forall r :: r in Query(table, c, batch) ==> r in table && After(c, r)
  {
    var s := Selected(table, c);
    forall r | r in Query(table, c, batch) ensures r in table && After(c, r) {
      if |s| > batch {
        var k :| 0 <= k < batch && s[..batch][k] == r;
        assert s[k] == r;
      }
      SelectedMember(table, c, r);
    }
  }

  /** After the `for row in results` loop: `current_lastname` and `next_id`
      are the last row's, or unchanged when the batch is empty. */
  function Advance(c: Cursor, q: seq<MysqlUser>): Cursor {
    if q == [] then c else Cursor(q[|q| - 1].lastname, q[|q| - 1].id)
  }

  /** The loop goes on unless `next_id == current_id`. */
  predicate Continues(c: Cursor, q: seq<MysqlUser>) {
    Advance(c, q).id != c.id
  }

  /** The loader's state between iterations: what has been pushed, the
      cursor, and whether the loop is still going. */
  datatype Progress = Progress(pushed: seq<MysqlUser>, cursor: Cursor, running: bool)

  /** The state after `rounds` iterations of the loop started at `start`;
      iterations after the loop has ended change nothing. */
  function Progressed(table: seq<MysqlUser>, start: Cursor, batch: int, rounds: nat): Progress
    requires batch > 0
  {
    if rounds == 0 then Progress([], start, true)
    else
      var p := Progressed(table, start, batch, rounds - 1);
      if !p.running then p
      else
        var q := Query(table, p.cursor, batch);
        Progress(p.pushed + q, Advance(p.cursor, q), Continues(p.cursor, q))
  }

  /** A batch that keeps the loop going moves the cursor strictly forward,
      so fewer rows remain after it. */
  lemma {:induction false} CursorAdvances(table: seq<MysqlUser>, c: Cursor, batch: int)
    requires batch > 0
    requires Continues(c, Query(table, c, batch))
    ensures Precedes(c, Advance(c, Query(table, c, batch)))
    ensures |Selected(table, Advance(c, Query(table, c, batch)))| < |Selected(table, c)|
  {
    var q := Query(table, c, batch);
    QueryMeaning(table, c, batch);
    var last := q[|q| - 1];
    assert last in q;
    SelectedShrinks(table, c, last);
  }

  lemma {:induction false} SelectedNarrows(table: seq<MysqlUser>, c: Cursor, d: Cursor)
    requires Precedes(c, d)
    ensures |Selected(table, d)| <= |Selected(table, c)|
    decreases |table|
  {
    if table != [] {
      SelectedNarrows(table[1..], c, d);
      if After(d, table[0]) {
        PrecedesTransitive(c, d, CursorOf(table[0]));
      }
    }
  }

  lemma {:induction false} SelectedShrinks(table: seq<MysqlUser>, c: Cursor, last: MysqlUser)
    requires last in table && After(c, last)
    ensures |Selected(table, CursorOf(last))| < |Selected(table, c)|
    decreases |table|
  {
    if table[0] == last {
      PrecedesIrreflexive(CursorOf(last));
      SelectedNarrows(table[1..], c, CursorOf(last));
    } else {
      SelectedShrinks(table[1..], c, last);
      if After(CursorOf(last), table[0]) {
        PrecedesTransitive(c, CursorOf(last), CursorOf(table[0]));
      }
    }
  }

  /** Each iteration that goes on leaves fewer rows ahead of the cursor, so
      after one more iteration than there are selected rows the loop has
      ended, whatever the table holds. */
  lemma {:induction false} ProgressBound(table: seq<MysqlUser>, start: Cursor, batch: int, rounds: nat)
    requires batch > 0
    requires Progressed(table, start, batch, rounds).running
    ensures rounds + |Selected(table, Progressed(table, start, batch, rounds).cursor)| <= |Selected(table, start)|
  {
    if rounds > 0 {
      var p := Progressed(table, start, batch, rounds - 1);
      ProgressBound(table, start, batch, rounds - 1);
      CursorAdvances(table, p.cursor, batch);
    }
  }

  lemma LoopEnds(table: seq<MysqlUser>, start: Cursor, batch: int)
    requires batch > 0
    ensures !Progressed(table, start, batch, |Selected(table, start)| + 1).running
  {
    if Progressed(table, start, batch, |Selected(table, start)| + 1).running {
      ProgressBound(table, start, batch, |Selected(table, start)| + 1);
    }
  }

  /** Selecting after `d` from what was selected after an earlier `c` is
      selecting after `d`. */
  lemma {:induction false} SelectedNested(table: seq<MysqlUser>, c: Cursor, d: Cursor)
    requires Precedes(c, d)
    ensures Selected(Selected(table, c), d) == Selected(table, d)
    decreases |table|
  {
    if table != [] {
      SelectedNested(table[1..], c, d);
      if After(d, table[0]) {
        PrecedesTransitive(c, d, CursorOf(table[0]));
        assert ([table[0]] + Selected(table[1..], c))[1..] == Selected(table[1..], c);
      } else if After(c, table[0]) {
        assert ([table[0]] + Selected(table[1..], c))[1..] == Selected(table[1..], c);
      }
    }
  }

  lemma {:induction false} SelectedOrdered(table: seq<MysqlUser>, c: Cursor)
    requires Ordered(table)
    ensures Ordered(Selected(table, c))
    decreases |table|
  {
    if table != [] {
      assert Ordered(table[1..]) by {
        forall i, j | 0 <= i < j < |table[1..]|
          ensures Precedes(CursorOf(table[1..][i]), CursorOf(table[1..][j]))
        {
          assert table[1..][i] == table[i + 1] && table[1..][j] == table[j + 1];
        }
      }
      SelectedOrdered(table[1..], c);
      if After(c, table[0]) {
        var rest := Selected(table[1..], c);
        forall i, j | 0 <= i < j < |[table[0]] + rest|
          ensures Precedes(CursorOf(([table[0]] + rest)[i]), CursorOf(([table[0]] + rest)[j]))
        {
          if i == 0 {
            var r := rest[j - 1];
            assert r in rest;
            SelectedMember(table[1..], c, r);
            var k :| 0 <= k < |table[1..]| && table[1..][k] == r;
            assert table[k + 1] == r;
          } else {
            assert ([table[0]] + rest)[i] == rest[i - 1];
          }
        }
      }
    }
  }

  lemma {:induction false} SelectedAll(s: seq<MysqlUser>, c: Cursor)
    requires forall i :: 0 <= i < |s| ==> After(c, s[i])
    ensures Selected(s, c) == s
    decreases |s|
  {
    if s != [] {
      assert forall i :: 0 <= i < |s[1..]| ==> s[1..][i] == s[i + 1];
      SelectedAll(s[1..], c);
      assert s == [s[0]] + s[1..];
    }
  }

  lemma {:induction false} SelectedNone(s: seq<MysqlUser>, c: Cursor)
    requires forall i :: 0 <= i < |s| ==> !After(c, s[i])
    ensures Selected(s, c) == []
    decreases |s|
  {
    if s != [] {
      assert forall i :: 0 <= i < |s[1..]| ==> s[1..][i] == s[i + 1];
      SelectedNone(s[1..], c);
    }
  }

  lemma {:induction false} SelectedAppend(a: seq<MysqlUser>, b: seq<MysqlUser>, c: Cursor)
    ensures Selected(a + b, c) == Selected(a, c) + Selected(b, c)
    decreases |a|
  {
    if a != [] {
      assert (a + b)[0] == a[0] && (a + b)[1..] == a[1..] + b;
      SelectedAppend(a[1..], b, c);
    } else {
      assert a + b == b;
    }
  }

  /** In an ordered listing, the rows after the `k`-th are those that
      follow it. */
  lemma OrderedRest(s: seq<MysqlUser>, k: nat)
    requires Ordered(s) && 0 < k <= |s|
    ensures Selected(s, CursorOf(s[k - 1])) == s[k..]
  {
    OrderedNotAfter(s, k);
    OrderedAfter(s, k);
    SelectedSplit(s, k, CursorOf(s[k - 1]));
  }

  /** In an ordered listing, no row up to the `k`-th follows it. */
  lemma OrderedNotAfter(s: seq<MysqlUser>, k: nat)
    requires Ordered(s) && 0 < k <= |s|
    ensures forall i :: 0 <= i < k ==> !After(CursorOf(s[k - 1]), s[i])
  {
    var c := CursorOf(s[k - 1]);
    forall i | 0 <= i < k ensures !Precedes(c, CursorOf(s[i])) {
      if i < k - 1 {
        PrecedesAsymmetric(CursorOf(s[i]), c);
      } else {
        PrecedesIrreflexive(c);
      }
    }
  }

  /** In an ordered listing, every row after the `k`-th follows it. */
  lemma OrderedAfter(s: seq<MysqlUser>, k: nat)
    requires Ordered(s) && 0 < k <= |s|
    ensures forall i :: k <= i < |s| ==> After(CursorOf(s[k - 1]), s[i])
  {
  }

  /** A listing whose first `k` rows are not after the cursor and whose
      remaining rows are: the selection is the remaining rows. */
  lemma SelectedSplit(s: seq<MysqlUser>, k: nat, c: Cursor)
    requires k <= |s|
    requires forall i :: 0 <= i < k ==> !After(c, s[i])
    requires forall i :: k <= i < |s| ==> After(c, s[i])
    ensures Selected(s, c) == s[k..]
  {
    var front, back := s[..k], s[k..];
    forall i | 0 <= i < |front| ensures !After(c, front[i]) {
      assert front[i] == s[i];
    }
    forall i | 0 <= i < |back| ensures After(c, back[i]) {
      assert back[i] == s[k + i];
    }
    SelectedNone(front, c);
    SelectedAll(back, c);
    SelectedAppend(front, back, c);
    assert front + back == s;
  }

  /** No row after the cursor shares the cursor's id. */
  predicate CursorFresh(table: seq<MysqlUser>, c: Cursor) {
    forall r :: r in Selected(table, c) ==> r.id != c.id
  }

  /** One iteration on an ordered table with a fresh cursor: the batch plus
      everything after the new cursor is everything after the old one; the
      loop goes on exactly when the batch is non-empty, and then the new
      cursor is fresh too. */
  lemma {:induction false} BatchStep(table: seq<MysqlUser>, c: Cursor, batch: int)
    requires batch > 0 && Ordered(table) && DistinctIds(table) && CursorFresh(table, c)
    ensures Continues(c, Query(table, c, batch)) <==> Query(table, c, batch) != []
    ensures Continues(c, Query(table, c, batch)) ==>
      Query(table, c, batch) + Selected(table, Advance(c, Query(table, c, batch))) == Selected(table, c)
      && CursorFresh(table, Advance(c, Query(table, c, batch)))
    ensures !Continues(c, Query(table, c, batch)) ==> Selected(table, c) == []
  {
    var s := Selected(table, c);
    var q := Query(table, c, batch);
    if s != [] {
      var k := |q|;
      assert k >= 1;
      var last := s[k - 1];
      assert q[k - 1] == last;
      assert last in s;
      var d := Advance(c, q);
      assert d == CursorOf(last);
      SelectedMember(table, c, last);
      SelectedOrdered(table, c);
      OrderedRest(s, k);
      SelectedNested(table, c, d);
      assert q == s[..k];
      assert q + s[k..] == s;
      forall r | r in Selected(table, d) ensures r.id != d.id {
        SelectedMember(table, d, r);
        SelectedMember(table, c, last);
        if r.id == d.id {
          assert r == last;
          PrecedesIrreflexive(d);
        }
      }
    }
  }

  /** What the loader promises about its output.
      The state after each iteration is consistent with the whole selection:
      while the loop runs, the pushed rows followed by the rows after the
      cursor are the rows after the start; once it has ended, the pushed rows
      are exactly those. */
  predicate Consistent(table: seq<MysqlUser>, start: Cursor, p: Progress) {
    if p.running then p.pushed + Selected(table, p.cursor) == Selected(table, start) && CursorFresh(table, p.cursor)
    else p.pushed == Selected(table, start)
  }

  lemma {:induction false} ProgressConsistent(table: seq<MysqlUser>, start: Cursor, batch: int, rounds: nat)
    requires batch > 0 && Ordered(table) && DistinctIds(table) && CursorFresh(table, start)
    ensures Consistent(table, start, Progressed(table, start, batch, rounds))
  {
    if rounds > 0 {
      ProgressConsistent(table, start, batch, rounds - 1);
      var p := Progressed(table, start, batch, rounds - 1);
      if p.running {
        BatchStep(table, p.cursor, batch);
        var q := Query(table, p.cursor, batch);
        if Continues(p.cursor, q) {
          assert p.pushed + q + Selected(table, Advance(p.cursor, q))
              == p.pushed + (q + Selected(table, Advance(p.cursor, q)));
        } else {
          assert q == [];
          assert p.pushed + q == p.pushed;
        }
      }
    }
  }

  /** With unique positive ids, the loop started at `(initial_lastname, 0)`
      pushes every row after that cursor, in (lastname, id) order, each
      exactly once, by the time it ends, and never more than that. */
  lemma LoaderDeliversAll(table: seq<MysqlUser>, initial: string, batch: int, rounds: nat)
    requires batch > 0 && Ordered(table) && DistinctIds(table)
    requires forall r :: r in table ==> r.id > 0
    requires !Progressed(table, Cursor(initial, 0), batch, rounds).running
    ensures Progressed(table, Cursor(initial, 0), batch, rounds).pushed == Selected(table, Cursor(initial, 0))
    ensures Ordered(Progressed(table, Cursor(initial, 0), batch, rounds).pushed)
    ensures forall r :: r in Progressed(table, Cursor(initial, 0), batch, rounds).pushed <==>
      r in table && (Less(initial, r.lastname) || (r.lastname == initial && r.id > 0))
  {
    forall r | r in Selected(table, Cursor(initial, 0)) ensures r.id != 0 {
      SelectedMember(table, Cursor(initial, 0), r);
    }
    ProgressConsistent(table, Cursor(initial, 0), batch, rounds);
    SelectedOrdered(table, Cursor(initial, 0));
    forall r ensures r in Selected(table, Cursor(initial, 0)) <==> r in table && After(Cursor(initial, 0), r) {
      SelectedMember(table, Cursor(initial, 0), r);
    }
  }

  /** The stop test looks at the id alone: when rows of two lastnames share
      an id, a batch ending on the second of them looks like an empty one
      and the loop ends with rows still ahead. */
  lemma SharedIdStopsEarly(x: MysqlUser, y: MysqlUser, z: MysqlUser, initial: string)
    requires Less(initial, x.lastname) && Less(x.lastname, y.lastname) && Less(y.lastname, z.lastname)
    requires x.id == y.id
    requires x.id != 0
    ensures !Progressed([x, y, z], Cursor(initial, 0), 1, 2).running
    ensures Progressed([x, y, z], Cursor(initial, 0), 1, 2).pushed == [x, y]
    ensures z in Selected([x, y, z], Cursor(initial, 0))
  {
    var t := [x, y, z];
    LessTransitive(initial, x.lastname, y.lastname);
    LessTransitive(initial, y.lastname, z.lastname);
    LessAsymmetric(x.lastname, y.lastname);
    LessIrreflexive(x.lastname);
    LessTransitive(x.lastname, y.lastname, z.lastname);
    var c := Cursor(initial, 0);
    assert t[1..] == [y, z] && [y, z][1..] == [z] && [z][1..] == [];
    assert Selected([z], c) == [z];
    assert Selected([y, z], c) == [y, z];
    assert Selected(t, c) == [x, y, z];
    assert Selected([z], CursorOf(x)) == [z];
    assert Selected([y, z], CursorOf(x)) == [y, z];
    assert Selected(t, CursorOf(x)) == [y, z];
    assert Query(t, c, 1) == [x];
    assert Progressed(t, c, 1, 1) == Progress([x], CursorOf(x), true);
    assert Query(t, CursorOf(x), 1) == [y];
    assert Progressed(t, c, 1, 2) == Progress([x, y], CursorOf(y), false);
  }

  /** Why `run` ended. */
  datatype Ending =
    | Unready          // `assert self._user_queue` or `assert self._batch_size` failed
    | StopRequested    // the plug was pulled before the next query
    | Finished         // a batch left the id unchanged

  /** The `for row in results` loop: each row is pushed in order, and the
      last one's lastname and id become `current_lastname` and `next_id`. */
  method PushBatch(queue: seq<MysqlUser>, results: seq<MysqlUser>, c: Cursor)
    returns (r: seq<MysqlUser>, lastname: string, nextId: int)
    ensures r == queue + results
    ensures Cursor(lastname, nextId) == Advance(c, results)
  {
    r, lastname, nextId := queue, c.lastname, c.id;
    var index := 0;
    while index < |results|
      invariant 0 <= index <= |results|
      invariant r == queue + results[..index]
      invariant Cursor(lastname, nextId) == Advance(c, results[..index])
    {
      var row := results[index];
      lastname := row.lastname;
      nextId := row.id;
      r := r + [row];
      index := index + 1;
    }
    assert results[..index] == results;
  }

  /** The query loop of `run()` from `start`, with a stop request seen at
      the top of iteration `stopAt`. */
  method Paginate(table: seq<MysqlUser>, start: Cursor, batch: int, stopAt: Option<nat>)
    returns (pushed: seq<MysqlUser>, rounds: nat, ending: Ending)
    requires batch > 0
    ensures ending != Unready
    ensures pushed == Progressed(table, start, batch, rounds).pushed
    ensures ending == StopRequested <==> Progressed(table, start, batch, rounds).running
    ensures ending == StopRequested ==> stopAt == Some(rounds)
    ensures ending == Finished ==> rounds > 0 && Progressed(table, start, batch, rounds - 1).running
    ensures stopAt.Some? ==> rounds <= stopAt.value
  {
    pushed, rounds := [], 0;
    var current := start;
    while true
      invariant Progressed(table, start, batch, rounds) == Progress(pushed, current, true)
      invariant stopAt.Some? ==> rounds <= stopAt.value
      decreases |Selected(table, current)|
    {
      if stopAt == Some(rounds) {
        return pushed, rounds, StopRequested;
      }
      var results := Query(table, current, batch);
      var lastname, nextId;
      pushed, lastname, nextId := PushBatch(pushed, results, current);
      rounds := rounds + 1;
      if nextId == current.id {
        return pushed, rounds, Finished;
      }
      CursorAdvances(table, current, batch);
      current := Cursor(lastname, nextId);
    }
  }

  class MysqlLoader {
    /** The join of `user` and `user_practice` as the connection sees it,
        in its (lastname, id) order. */
    const table: seq<MysqlUser>
    var initialLastname: string
    /** `None` until `init_queue`; then the queue's `maxsize`. */
    var queueSize: Option<int>
    var batchSize: Option<int>

    /** `init_queue` only accepts a positive batch size. */
    ghost predicate Valid()
      reads this
    {
      batchSize.Some? ==> batchSize.value > 0
    }

    /** `MysqlLoader(host, port, database, username, password)` connected to
        a database whose join is `table`. */
    constructor (table: seq<MysqlUser>)
      ensures Valid()
      ensures this.table == table
      ensures initialLastname == "" && queueSize == None && batchSize == None
    {
      this.table := table;
      initialLastname := "";
      queueSize := None;
      batchSize := None;
    }

    /** `set_initial_lastname(lastname)` */
    method SetInitialLastname(lastname: string)
      modifies this
      ensures initialLastname == lastname
      ensures queueSize == old(queueSize) && batchSize == old(batchSize)
    {
      initialLastname := lastname;
    }

    /** `init_queue(queue_maxsize, db_batch_size)`: `ok` is false when one of
        its assertions fails, before anything is assigned. */
    method InitQueue(maxsize: int, batch: int) returns (ok: bool)
      requires Valid()
      modifies this
      ensures Valid()
      ensures ok <==> maxsize > 0 && batch > 0
      ensures ok ==> queueSize == Some(maxsize) && batchSize == Some(batch)
      ensures !ok ==> queueSize == old(queueSize) && batchSize == old(batchSize)
      ensures initialLastname == old(initialLastname)
    {
      if maxsize <= 0 || batch <= 0 {
        return false;
      }
      queueSize := Some(maxsize);
      batchSize := Some(batch);
      return true;
    }

    /** `run()`, with a stop request seen at the top of iteration `stopAt`:
        the query loop from `(initial_lastname, 0)`. */
    method Run(stopAt: Option<nat>) returns (pushed: seq<MysqlUser>, rounds: nat, ending: Ending)
      requires Valid()
      ensures ending == Unready <==> queueSize.None? || batchSize.None?
      ensures ending == Unready ==> pushed == [] && rounds == 0
      ensures ending != Unready ==>
        pushed == Progressed(table, Cursor(initialLastname, 0), batchSize.value, rounds).pushed
      ensures ending == StopRequested ==>
        stopAt == Some(rounds) && Progressed(table, Cursor(initialLastname, 0), batchSize.value, rounds).running
      ensures ending == Finished ==>
        rounds > 0
        && !Progressed(table, Cursor(initialLastname, 0), batchSize.value, rounds).running
        && Progressed(table, Cursor(initialLastname, 0), batchSize.value, rounds - 1).running
      ensures stopAt.Some? ==> rounds <= stopAt.value
    {
      if queueSize.None? || batchSize.None? {
        return [], 0, Unready;
      }
      pushed, rounds, ending := Paginate(table, Cursor(initialLastname, 0), batchSize.value, stopAt);
    }
  }
}
