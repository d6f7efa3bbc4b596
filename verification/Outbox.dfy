/** The transactional outbox and the relay that drains it: row lifecycle, publication
    order, and what holds over every run with publish, store and crash failures. */
module Outbox {
  import opened Base

  type RowId = string
  type Payload = string

  datatype Status = Pending | Sent | Quarantined
  datatype Row = Row(id: RowId, payload: Payload, createdAt: string, status: Status, attempts: nat)

  // ----- The table -------------------------------------------------------------------------

  /** ORDER BY created_at, id. */
  predicate Before(a: Row, b: Row) {
    Lex(a.createdAt, b.createdAt) || (a.createdAt == b.createdAt && Lex(a.id, b.id))
  }

  lemma BeforeTotal(a: Row, b: Row)
    ensures !(Before(a, b) && Before(b, a))
    ensures a.id != b.id ==> Before(a, b) || Before(b, a)
    ensures a.id == b.id && a.createdAt == b.createdAt ==> !Before(a, b)
  {
    LexTotal(a.createdAt, b.createdAt);
    LexTotal(a.id, b.id);
  }

  lemma BeforeTransitive(a: Row, b: Row, c: Row)
    requires Before(a, b) && Before(b, c)
    ensures Before(a, c)
  {
    if Lex(a.createdAt, b.createdAt) && Lex(b.createdAt, c.createdAt) {
      LexTransitive(a.createdAt, b.createdAt, c.createdAt);
    } else if a.createdAt == b.createdAt == c.createdAt {
      LexTransitive(a.id, b.id, c.id);
    }
  }

  predicate DistinctIds(rows: seq<Row>) {
    forall i, j | 0 <= i < j < |rows| :: rows[i].id != rows[j].id
  }

  function Ids(rows: seq<Row>): set<RowId> { set i | 0 <= i < |rows| :: rows[i].id }

  /** UPDATE ... WHERE id = ?. */
  function Updated(rows: seq<Row>, id: RowId, status: Status, bump: nat): (r: seq<Row>)
    ensures |r| == |rows|
  {
    seq(|rows|, i requires 0 <= i < |rows| =>
      if rows[i].id == id then rows[i].(status := status, attempts := rows[i].attempts + bump) else rows[i])
  }

  function InsertByKey(q: seq<Row>, row: Row): seq<Row> {
    if q == [] || Before(q[|q| - 1], row) then q + [row]
    else InsertByKey(q[..|q| - 1], row) + [q[|q| - 1]]
  }

  function SortedPending(rows: seq<Row>): seq<Row> {
    if rows == [] then [] else
    var rest, row := SortedPending(rows[..|rows| - 1]), rows[|rows| - 1];
    if row.status.Pending? then InsertByKey(rest, row) else rest
  }

  function Batch(rows: seq<Row>, limit: nat): seq<Row> {
    var q := SortedPending(rows);
    if |q| <= limit then q else q[..limit]
  }

  predicate InKeyOrder(q: seq<Row>) {
    forall i, j | 0 <= i < j < |q| :: Before(q[i], q[j])
  }

  /** q lists exactly the pending rows, oldest first. */
  ghost predicate IsQueue(rows: seq<Row>, q: seq<Row>) {
    InKeyOrder(q) && forall r :: r in q <==> r in rows && r.status.Pending?
  }

  lemma {:induction false} InsertKeepsKeyOrder(q: seq<Row>, row: Row)
    requires InKeyOrder(q) && forall i | 0 <= i < |q| :: q[i].id != row.id
    ensures InKeyOrder(InsertByKey(q, row))
    ensures forall r :: r in InsertByKey(q, row) <==> r in q || r == row
  {
    hide Before;
    if q == [] {
    } else if Before(q[|q| - 1], row) {
      forall i | 0 <= i < |q| ensures Before(q[i], row) {
        if i < |q| - 1 { BeforeTransitive(q[i], q[|q| - 1], row); }
      }
    } else {
      var front, last := q[..|q| - 1], q[|q| - 1];
      InsertKeepsKeyOrder(front, row);
      BeforeTotal(last, row);
      var rest := InsertByKey(front, row);
      forall i | 0 <= i < |rest| ensures Before(rest[i], last) {
        assert rest[i] in rest;
        if rest[i] != row {
          var k :| 0 <= k < |front| && front[k] == rest[i];
          assert q[k] == rest[i];
        }
      }
      assert q == front + [last];
    }
  }

  /** FetchPending lists exactly the pending rows in key order: the older row first, and of one
      instant the lower id. */
  lemma {:induction false} SortedPendingIsQueue(rows: seq<Row>)
    requires DistinctIds(rows)
    ensures IsQueue(rows, SortedPending(rows))
    ensures forall i, j | 0 <= i < j < |SortedPending(rows)| ::
      var a, b := SortedPending(rows)[i], SortedPending(rows)[j];
      Lex(a.createdAt, b.createdAt) || (a.createdAt == b.createdAt && Lex(a.id, b.id))
  {
    if rows != [] {
      var front, row := rows[..|rows| - 1], rows[|rows| - 1];
      SortedPendingIsQueue(front);
      var rest := SortedPending(front);
      assert rows == front + [row];
      if row.status.Pending? {
        forall i | 0 <= i < |rest| ensures rest[i].id != row.id {
          assert rest[i] in rest;
        }
        InsertKeepsKeyOrder(rest, row);
      }
    }
  }

  lemma {:induction false} QueueIsUnique(p: seq<Row>, q: seq<Row>)
    requires InKeyOrder(p) && InKeyOrder(q) && forall r :: r in p <==> r in q
    ensures p == q
  {
    hide Before;
    FirstIsMember(p);
    FirstIsMember(q);
    if p != [] {
      assert p[0] in q && q != [];
      assert q[0] in p;
      var i :| 0 <= i < |p| && p[i] == q[0];
      var j :| 0 <= j < |q| && q[j] == p[0];
      BeforeTotal(p[0], q[0]);
      BeforeTotal(p[0], p[0]);
      assert p[0] == q[0];
      forall r ensures r in p[1..] <==> r in q[1..] {
        TailMembers(p, r);
        TailMembers(q, r);
      }
      QueueIsUnique(p[1..], q[1..]);
    }
  }

  lemma FirstIsMember(q: seq<Row>)
    ensures q != [] ==> q[0] in q
  {
  }

  lemma TailMembers(q: seq<Row>, r: Row)
    requires InKeyOrder(q) && q != []
    ensures r in q[1..] <==> r in q && r != q[0]
  {
    if r in q[1..] {
      var i :| 0 <= i < |q| - 1 && q[i + 1] == r;
      BeforeTotal(q[0], r);
      BeforeTotal(r, r);
    }
    if r in q && r != q[0] {
      var i :| 0 <= i < |q| && q[i] == r;
      assert q[1..][i - 1] == r;
    }
  }

  // ----- The relay, step by step ----------------------------------------------------------------

  /** `published` is every arrival at the broker; `confirmed` those it acknowledged.
      `work` is what is left of the fetched batch; `acked` that its first row is confirmed
      and waits to be marked. */
  datatype Sys = Sys(rows: seq<Row>, published: seq<RowId>, confirmed: set<RowId>, work: seq<Row>, acked: bool)

  const START := Sys([], [], {}, [], false)

  /** A publish without an acknowledgement may still have arrived. */
  datatype Publication = Confirmed | Lost | Unconfirmed

  datatype Step =
    | Enqueue(row: Row)
    | Fetch(limit: nat)
    | Quarantine(ok: bool)
    | Publish(publication: Publication, recorded: bool)
    | MarkSent(ok: bool)
    | Crash

  predicate Enabled(valid: Payload -> bool, s: Sys, step: Step) {
    match step
    case Enqueue(row) => row.status.Pending? && row.attempts == 0
    case Fetch(_) => s.work == []
    case Quarantine(_) => s.work != [] && !s.acked && !valid(s.work[0].payload)
    case Publish(_, _) => s.work != [] && !s.acked && valid(s.work[0].payload)
    case MarkSent(_) => s.work != [] && s.acked
    case Crash => true
  }

  /** A step that is not enabled does nothing. */
  function Do(valid: Payload -> bool, s: Sys, step: Step): Sys {
    if !Enabled(valid, s, step) then s else
    match step
    case Enqueue(row) => if row.id in Ids(s.rows) then s else s.(rows := s.rows + [row])
    case Fetch(limit) => s.(work := Batch(s.rows, limit), acked := false)
    case Quarantine(ok) =>
      if ok then s.(rows := Updated(s.rows, s.work[0].id, Quarantined, 1), work := s.work[1..])
      else s.(work := [])
    case Publish(publication, recorded) =>
      var id := s.work[0].id;
      var arrived := if publication.Lost? then s.published else s.published + [id];
      if publication.Confirmed? then s.(published := arrived, confirmed := s.confirmed + {id}, acked := true)
      else s.(published := arrived, rows := if recorded then Updated(s.rows, id, Pending, 1) else s.rows, work := [])
    case MarkSent(ok) =>
      if ok then s.(rows := Updated(s.rows, s.work[0].id, Sent, 0), work := s.work[1..], acked := false)
      else s.(work := [], acked := false)
    case Crash => s.(work := [], acked := false)
  }

  function Exec(valid: Payload -> bool, s: Sys, steps: seq<Step>): Sys {
    if steps == [] then s else Do(valid, Exec(valid, s, steps[..|steps| - 1]), steps[|steps| - 1])
  }

  // ----- Safety over every run --------------------------------------------------------------------

  ghost predicate RowsSafe(valid: Payload -> bool, s: Sys) {
    && DistinctIds(s.rows)
    && (forall i | 0 <= i < |s.rows| :: s.rows[i].status.Sent? ==>
          valid(s.rows[i].payload) && s.rows[i].id in s.confirmed)
    && (forall i | 0 <= i < |s.rows| :: s.rows[i].status.Quarantined? ==> !valid(s.rows[i].payload))
    && (forall i | 0 <= i < |s.rows| && !valid(s.rows[i].payload) :: s.rows[i].id !in s.published)
  }

  ghost predicate BrokerSafe(s: Sys) {
    && (forall k | 0 <= k < |s.published| :: s.published[k] in Ids(s.rows))
    && (forall id | id in s.confirmed :: id in s.published)
  }

  ghost predicate WorkSafe(valid: Payload -> bool, s: Sys) {
    && (forall i | 0 <= i < |s.work| :: s.work[i] in s.rows && s.work[i].status.Pending?)
    && InKeyOrder(s.work)
    && (s.acked ==> s.work != [] && valid(s.work[0].payload) && s.work[0].id in s.confirmed)
  }

  /** Sent means confirmed, an invalid payload never reached the broker, a valid one is
      never quarantined. */
  ghost predicate Safe(valid: Payload -> bool, s: Sys) {
    RowsSafe(valid, s) && BrokerSafe(s) && WorkSafe(valid, s)
  }

  lemma SameIds(rows: seq<Row>, id: RowId, status: Status, bump: nat)
    ensures Ids(Updated(rows, id, status, bump)) == Ids(rows)
    ensures DistinctIds(rows) ==> DistinctIds(Updated(rows, id, status, bump))
  {
    var after := Updated(rows, id, status, bump);
    forall x | x in Ids(rows) ensures x in Ids(after) {
      var i :| 0 <= i < |rows| && rows[i].id == x;
      assert after[i].id == x;
    }
  }

  lemma OthersUntouched(rows: seq<Row>, id: RowId, status: Status, bump: nat, r: Row)
    requires r in rows && r.id != id
    ensures r in Updated(rows, id, status, bump)
  {
    var i :| 0 <= i < |rows| && rows[i] == r;
    assert Updated(rows, id, status, bump)[i] == r;
  }

  /** The first row of the batch is settled; the rest of the batch is untouched. */
  lemma RestOfWork(valid: Payload -> bool, s: Sys, status: Status, bump: nat)
    requires Safe(valid, s) && s.work != []
    ensures var after := Updated(s.rows, s.work[0].id, status, bump);
      && (forall i | 0 <= i < |s.work[1..]| :: s.work[1..][i] in after && s.work[1..][i].status.Pending?)
      && InKeyOrder(s.work[1..])
  {
    hide Before;
    forall i | 0 <= i < |s.work[1..]| ensures s.work[1..][i] in Updated(s.rows, s.work[0].id, status, bump) {
      var r := s.work[i + 1];
      assert Before(s.work[0], r);
      BeforeTotal(s.work[0], r);
      BeforeTotal(r, r);
      SameKey(s.rows, s.work[0], r);
      OthersUntouched(s.rows, s.work[0].id, status, bump, r);
    }
  }

  lemma SameKey(rows: seq<Row>, a: Row, b: Row)
    requires DistinctIds(rows) && a in rows && b in rows
    ensures a.id == b.id ==> a == b
  {
  }

  lemma FetchKeeps(valid: Payload -> bool, s: Sys, limit: nat)
    requires Safe(valid, s)
    ensures WorkSafe(valid, s.(work := Batch(s.rows, limit), acked := false))
  {
    SortedPendingIsQueue(s.rows);
    var q := SortedPending(s.rows);
    forall i | 0 <= i < |q| ensures q[i] in s.rows && q[i].status.Pending? {
      assert q[i] in q;
    }
  }

  lemma SettleKeeps(valid: Payload -> bool, s: Sys, status: Status, bump: nat)
    requires Safe(valid, s) && s.work != []
    requires status.Sent? ==> s.acked
    requires status.Quarantined? ==> !valid(s.work[0].payload)
    ensures RowsSafe(valid, s.(rows := Updated(s.rows, s.work[0].id, status, bump)))
    ensures BrokerSafe(s.(rows := Updated(s.rows, s.work[0].id, status, bump)))
  {
    var id := s.work[0].id;
    var after := Updated(s.rows, id, status, bump);
    SameIds(s.rows, id, status, bump);
    forall i | 0 <= i < |after| && s.rows[i].id == id ensures s.rows[i] == s.work[0] {
      SameKey(s.rows, s.rows[i], s.work[0]);
    }
  }

  lemma EnqueueKeeps(valid: Payload -> bool, s: Sys, row: Row)
    requires Safe(valid, s) && row.status.Pending? && row.id !in Ids(s.rows)
    ensures Safe(valid, s.(rows := s.rows + [row]))
    ensures Ids(s.rows + [row]) == Ids(s.rows) + {row.id}
  {
    var after := s.rows + [row];
    forall i | 0 <= i < |s.rows| ensures s.rows[i].id != row.id && after[i] == s.rows[i] {
      assert s.rows[i].id in Ids(s.rows);
    }
    forall x | x in Ids(s.rows) + {row.id} ensures x in Ids(after) {
      if x in Ids(s.rows) {
        var i :| 0 <= i < |s.rows| && s.rows[i].id == x;
        assert after[i].id == x;
      } else {
        assert after[|s.rows|].id == x;
      }
    }
    forall k | 0 <= k < |s.published| ensures s.published[k] in Ids(s.rows) {
    }
  }

  lemma PublishKeeps(valid: Payload -> bool, s: Sys)
    requires Safe(valid, s) && s.work != [] && valid(s.work[0].payload)
    ensures var s1 := s.(published := s.published + [s.work[0].id]);
      && RowsSafe(valid, s1) && BrokerSafe(s1)
      && BrokerSafe(s1.(confirmed := s.confirmed + {s.work[0].id}))
      && RowsSafe(valid, s1.(confirmed := s.confirmed + {s.work[0].id}))
  {
    var id, s1 := s.work[0].id, s.(published := s.published + [s.work[0].id]);
    var n :| 0 <= n < |s.rows| && s.rows[n] == s.work[0];
    assert id in Ids(s.rows);
    assert s1.published[|s.published|] == id;
    forall x | x in s.confirmed ensures x in s1.published {
      var k :| 0 <= k < |s.published| && s.published[k] == x;
      assert s1.published[k] == x;
    }
    forall i | 0 <= i < |s.rows| && !valid(s.rows[i].payload) ensures s.rows[i].id !in s1.published {
      SameKey(s.rows, s.rows[i], s.work[0]);
    }
  }

  lemma StepKeepsSafe(valid: Payload -> bool, s: Sys, step: Step)
    requires Safe(valid, s)
    ensures Safe(valid, Do(valid, s, step))
  {
    hide RowsSafe, BrokerSafe, Updated, Batch;
    if !Enabled(valid, s, step) {
      return;
    }
    match step
    case Enqueue(row) => if row.id !in Ids(s.rows) { EnqueueKeeps(valid, s, row); }
    case Fetch(limit) =>
      FetchKeeps(valid, s, limit);
      NoWork(valid, s, s.(work := Batch(s.rows, limit), acked := false));
    case Quarantine(ok) =>
      SettleKeeps(valid, s, Quarantined, 1);
      RestOfWork(valid, s, Quarantined, 1);
      NoWork(valid, s.(rows := Updated(s.rows, s.work[0].id, Quarantined, 1)), Do(valid, s, step));
      NoWork(valid, s, Do(valid, s, step));
    case Publish(publication, recorded) =>
      PublishKeeps(valid, s);
      var s1 := s.(published := s.published + [s.work[0].id]);
      if publication.Confirmed? {
        NoWork(valid, s1.(confirmed := s.confirmed + {s.work[0].id}), Do(valid, s, step));
      } else {
        var mid := if publication.Lost? then s else s1;
        SettleKeeps(valid, mid, Pending, 1);
        NoWork(valid, mid.(rows := Updated(s.rows, s.work[0].id, Pending, 1)), Do(valid, s, step));
        NoWork(valid, mid, Do(valid, s, step));
      }
    case MarkSent(ok) =>
      SettleKeeps(valid, s, Sent, 0);
      RestOfWork(valid, s, Sent, 0);
      NoWork(valid, s.(rows := Updated(s.rows, s.work[0].id, Sent, 0)), Do(valid, s, step));
      NoWork(valid, s, Do(valid, s, step));
    case Crash => NoWork(valid, s, Do(valid, s, step));
  }

  /** The row and broker parts do not depend on the relay's own memory. */
  lemma NoWork(valid: Payload -> bool, s: Sys, t: Sys)
    ensures s.rows == t.rows && s.published == t.published && s.confirmed == t.confirmed ==>
      (RowsSafe(valid, s) <==> RowsSafe(valid, t)) && (BrokerSafe(s) <==> BrokerSafe(t))
  {
  }

  /** Rows are never lost or rewritten, and sent and quarantined are terminal. */
  ghost predicate Follows(a: seq<Row>, b: seq<Row>) {
    && |a| <= |b|
    && forall i | 0 <= i < |a| ::
         && b[i].id == a[i].id && b[i].payload == a[i].payload && b[i].createdAt == a[i].createdAt
         && a[i].attempts <= b[i].attempts
         && (!a[i].status.Pending? ==> b[i].status == a[i].status)
  }

  lemma StepFollows(valid: Payload -> bool, s: Sys, step: Step)
    requires Safe(valid, s)
    ensures Follows(s.rows, Do(valid, s, step).rows)
  {
    hide InKeyOrder, Batch;
    if s.work != [] {
      assert s.work[0] in s.rows;
      forall i | 0 <= i < |s.rows| && s.rows[i].id == s.work[0].id ensures s.rows[i].status.Pending? {
        SameKey(s.rows, s.rows[i], s.work[0]);
      }
    }
  }

  /** Main theorem: from any safe state, every run with publish, store and crash failures
      ends in a safe state in which no row was lost and no terminal row changed. */
  lemma {:induction false} RelayIsSafe(valid: Payload -> bool, s: Sys, steps: seq<Step>)
    requires Safe(valid, s)
    ensures Safe(valid, Exec(valid, s, steps))
    ensures Follows(s.rows, Exec(valid, s, steps).rows)
  {
    hide Safe, Do;
    if steps != [] {
      var front, last := steps[..|steps| - 1], steps[|steps| - 1];
      RelayIsSafe(valid, s, front);
      StepKeepsSafe(valid, Exec(valid, s, front), last);
      StepFollows(valid, Exec(valid, s, front), last);
    }
  }

  /** The step charges an attempt to the row: a quarantine, or a failed publish that could be
      recorded. */
  predicate Charges(valid: Payload -> bool, s: Sys, step: Step, id: RowId) {
    && Enabled(valid, s, step) && s.work != [] && s.work[0].id == id
    && (step == Quarantine(true) || (step.Publish? && !step.publication.Confirmed? && step.recorded))
  }

  function ChargesTo(valid: Payload -> bool, s: Sys, steps: seq<Step>, id: RowId): nat {
    if steps == [] then 0 else
    var front := steps[..|steps| - 1];
    ChargesTo(valid, s, front, id) + if Charges(valid, Exec(valid, s, front), steps[|steps| - 1], id) then 1 else 0
  }

  /** Over any run a row's attempts grow by exactly the failures charged to it. */
  lemma {:induction false} AttemptsAreCharged(valid: Payload -> bool, s: Sys, steps: seq<Step>, i: nat)
    requires i < |s.rows|
    ensures var rows, row := Exec(valid, s, steps).rows, s.rows[i];
      i < |rows| && rows[i].id == row.id && rows[i].attempts == row.attempts + ChargesTo(valid, s, steps, row.id)
  {
    hide Batch;
    if steps != [] {
      AttemptsAreCharged(valid, s, steps[..|steps| - 1], i);
    }
  }

  lemma StartIsSafe(valid: Payload -> bool)
    ensures Safe(valid, START)
  {
  }

  lemma NoSteps(valid: Payload -> bool, s: Sys)
    ensures Exec(valid, s, []) == s
  {
  }

  lemma Then(valid: Payload -> bool, s: Sys, path: seq<Step>, step: Step)
    ensures Exec(valid, s, path + [step]) == Do(valid, Exec(valid, s, path), step)
  {
    assert (path + [step])[..|path|] == path;
  }

  lemma {:induction false} ExecJoins(valid: Payload -> bool, s: Sys, xs: seq<Step>, ys: seq<Step>)
    ensures Exec(valid, s, xs + ys) == Exec(valid, Exec(valid, s, xs), ys)
  {
    if ys == [] {
      assert xs + ys == xs;
    } else {
      assert (xs + ys)[..|xs + ys| - 1] == xs + ys[..|ys| - 1];
      ExecJoins(valid, s, xs, ys[..|ys| - 1]);
    }
  }
}
