/** The relay's drain loop: DrainOnce settles the longest good prefix of the batch, and
    healthy drains empty the queue. */
module Relay {
  import opened Outbox

  /** What the drain does with one row of the batch once it is done with it. */
  function SettledRow(valid: Payload -> bool, row: Row): Row {
    if valid(row.payload) then row.(status := Sent) else row.(status := Quarantined, attempts := row.attempts + 1)
  }

  /** The table after the rows of `done` are settled and nothing else is touched. */
  function Settled(valid: Payload -> bool, rows: seq<Row>, done: seq<Row>): (r: seq<Row>)
    ensures |r| == |rows|
  {
    seq(|rows|, i requires 0 <= i < |rows| => if rows[i].id in Ids(done) then SettledRow(valid, rows[i]) else rows[i])
  }

  function ValidIds(valid: Payload -> bool, done: seq<Row>): seq<RowId> {
    if done == [] then [] else
    var row := done[|done| - 1];
    ValidIds(valid, done[..|done| - 1]) + if valid(row.payload) then [row.id] else []
  }

  /** The drain ends at this row: an unconfirmed publish, or a status that cannot be written. */
  predicate Stops(valid: Payload -> bool, row: Row, publication: Publication, storeOk: bool) {
    !storeOk || (valid(row.payload) && !publication.Confirmed?)
  }

  lemma StopsWhen(valid: Payload -> bool, row: Row, publication: Publication, storeOk: bool)
    ensures !Stops(valid, row, publication, storeOk) <==>
      storeOk && (valid(row.payload) ==> publication.Confirmed?)
  {
  }

  lemma BatchIsSound(rows: seq<Row>, limit: nat)
    requires DistinctIds(rows)
    ensures var batch := Batch(rows, limit);
      && InKeyOrder(batch)
      && (forall i | 0 <= i < |batch| :: batch[i] in rows && batch[i].status.Pending?)
      && DistinctIds(batch)
  {
    hide Before;
    SortedPendingIsQueue(rows);
    var q := SortedPending(rows);
    forall i | 0 <= i < |q| ensures q[i] in rows && q[i].status.Pending? {
      assert q[i] in q;
    }
    forall i, j | 0 <= i < j < |q| ensures q[i].id != q[j].id {
      SameKey(rows, q[i], q[j]);
      assert Before(q[i], q[j]);
      BeforeTotal(q[i], q[i]);
    }
  }

  lemma IdsGrow(done: seq<Row>, row: Row)
    ensures Ids(done + [row]) == Ids(done) + {row.id}
  {
    var all := done + [row];
    assert all[|done|] == row;
    forall x | x in Ids(done) ensures x in Ids(all) {
      var i :| 0 <= i < |done| && done[i].id == x;
      assert all[i].id == x;
    }
  }

  /** Settling one more row is one status update. */
  lemma SettleOne(valid: Payload -> bool, rows: seq<Row>, batch: seq<Row>, i: nat)
    requires DistinctIds(rows) && DistinctIds(batch) && i < |batch| && batch[i] in rows
    ensures Settled(valid, rows, batch[..i + 1]) ==
      if valid(batch[i].payload) then Updated(Settled(valid, rows, batch[..i]), batch[i].id, Sent, 0)
      else Updated(Settled(valid, rows, batch[..i]), batch[i].id, Quarantined, 1)
  {
    assert batch[..i + 1] == batch[..i] + [batch[i]];
    IdsGrow(batch[..i], batch[i]);
    forall k | 0 <= k < |rows| && rows[k].id == batch[i].id ensures rows[k] == batch[i] {
      SameKey(rows, rows[k], batch[i]);
    }
    assert batch[i].id !in Ids(batch[..i]);
  }

  /** The table after one row is handled. */
  function Handled(valid: Payload -> bool, rows: seq<Row>, row: Row, outcome: Publication, storeOk: bool,
                   recorded: bool): seq<Row> {
    if valid(row.payload) && !outcome.Confirmed? then (if recorded then Updated(rows, row.id, Pending, 1) else rows)
    else if !storeOk then rows
    else if valid(row.payload) then Updated(rows, row.id, Sent, 0)
    else Updated(rows, row.id, Quarantined, 1)
  }

  function Arrived(valid: Payload -> bool, row: Row, outcome: Publication): seq<RowId> {
    if valid(row.payload) && !outcome.Lost? then [row.id] else []
  }

  /** The table after a drain that settled n rows of the batch: the rest is untouched but
      for the attempt counted on a row whose publish failed. */
  function RowsAfter(valid: Payload -> bool, rows: seq<Row>, batch: seq<Row>, n: nat, publication: nat -> Publication,
                     recorded: bool): seq<Row>
    requires n <= |batch|
  {
    var done := Settled(valid, rows, batch[..n]);
    if n < |batch| && recorded && valid(batch[n].payload) && !publication(n).Confirmed?
    then Updated(done, batch[n].id, Pending, 1) else done
  }

  lemma HandledIsSettled(valid: Payload -> bool, rows: seq<Row>, batch: seq<Row>, i: nat,
                         publication: nat -> Publication, storeOk: bool, recorded: bool)
    requires DistinctIds(rows) && DistinctIds(batch) && i < |batch| && batch[i] in rows
    ensures var row, after := batch[i],
      Handled(valid, Settled(valid, rows, batch[..i]), batch[i], publication(i), storeOk, recorded);
      if Stops(valid, row, publication(i), storeOk)
      then after == RowsAfter(valid, rows, batch, i, publication, recorded)
      else after == Settled(valid, rows, batch[..i + 1])
           && ValidIds(valid, batch[..i + 1]) == ValidIds(valid, batch[..i]) + Arrived(valid, row, publication(i))
           && |Arrived(valid, row, publication(i))| == if valid(row.payload) then 1 else 0
  {
    hide Settled, Updated, DistinctIds;
    SettleOne(valid, rows, batch, i);
    assert batch[..i + 1][..i] == batch[..i] && batch[..i + 1][i] == batch[i];
  }

  lemma RowsAfterKeepsIds(valid: Payload -> bool, rows: seq<Row>, batch: seq<Row>, n: nat,
                          publication: nat -> Publication, recorded: bool)
    requires DistinctIds(rows) && n <= |batch|
    ensures DistinctIds(RowsAfter(valid, rows, batch, n, publication, recorded))
    ensures n == |batch| ==> RowsAfter(valid, rows, batch, n, publication, recorded) == Settled(valid, rows, batch[..n])
  {
    SettledKeepsIds(valid, rows, batch[..n]);
    if n < |batch| {
      SameIds(Settled(valid, rows, batch[..n]), batch[n].id, Pending, 1);
    }
  }

  class Worker {
    const valid: Payload -> bool
    const limit: nat
    var rows: seq<Row>
    var published: seq<RowId>
    var confirmed: set<RowId>

    /** The system with the given batch still in hand. */
    function State(work: seq<Row>, acked: bool): Sys
      reads this
    {
      Sys(rows, published, confirmed, work, acked)
    }

    /** id is the primary key. */
    predicate Valid()
      reads this
    {
      DistinctIds(rows)
    }

    constructor (valid: Payload -> bool, batch: int)
      ensures Valid() && State([], false) == START && this.valid == valid
      ensures limit == if batch <= 0 then 100 else batch
    {
      this.valid := valid;
      limit := if batch <= 0 then 100 else batch;
      rows, published, confirmed := [], [], {};
    }

    method Enqueue(id: RowId, payload: Payload, createdAt: string) returns (ok: bool)
      requires Valid()
      modifies this`rows
      ensures Valid()
      ensures State([], false) ==
        Do(valid, old(State([], false)), Step.Enqueue(Row(id, payload, createdAt, Pending, 0)))
      ensures ok <==> id !in old(Ids(rows))
    {
      ok := id !in Ids(rows);
      if ok {
        forall i | 0 <= i < |rows| ensures rows[i].id != id {
          assert rows[i].id in Ids(rows);
        }
        rows := rows + [Row(id, payload, createdAt, Pending, 0)];
      }
    }

    /** One row of the batch: quarantine it, or publish it and mark it sent. */
    method Handle(row: Row, ghost rest: seq<Row>, outcome: Publication, storeOk: bool, recorded: bool)
      returns (stopped: bool, ghost steps: seq<Step>)
      modifies this
      ensures stopped <==> Stops(valid, row, outcome, storeOk)
      ensures rows == Handled(valid, old(rows), row, outcome, storeOk, recorded)
      ensures published == old(published) + Arrived(valid, row, outcome)
      ensures State(if stopped then [] else rest, false) == Exec(valid, old(State([row] + rest, false)), steps)
    {
      hide Enabled, Do, Updated;
      ghost var start := State([row] + rest, false);
      assert start.work[0] == row && start.work[1..] == rest;
      NoSteps(valid, start);
      if !valid(row.payload) {
        steps := [Quarantine(storeOk)];
        Then(valid, start, [], steps[0]);
        QuarantineStep(valid, start, storeOk);
        if !storeOk {
          return true, steps;
        }
        rows := Updated(rows, row.id, Quarantined, 1);
        return false, steps;
      }
      steps := [Publish(outcome, recorded)];
      Then(valid, start, [], steps[0]);
      PublishStep(valid, start, outcome, recorded);
      if !outcome.Lost? {
        published := published + [row.id];
      }
      if !outcome.Confirmed? {
        if recorded {
          rows := Updated(rows, row.id, Pending, 1);
        }
        return true, steps;
      }
      confirmed := confirmed + {row.id};
      Then(valid, start, steps, MarkSent(storeOk));
      MarkStep(valid, State([row] + rest, true), storeOk);
      steps := steps + [MarkSent(storeOk)];
      if !storeOk {
        return true, steps;
      }
      rows := Updated(rows, row.id, Sent, 0);
      return false, steps;
    }

    /** `settled` is where the drain stopped; `path` the protocol steps it took. */
    method DrainOnce(fetchOk: bool, publication: nat -> Publication, storeOk: nat -> bool, recorded: bool)
      returns (sent: nat, failed: bool, ghost settled: nat, ghost path: seq<Step>)
      requires Valid()
      modifies this
      ensures Valid()
      ensures State([], false) == Exec(valid, old(State([], false)), path)
      ensures !fetchOk ==> failed && sent == 0 && State([], false) == old(State([], false))
      ensures fetchOk ==>
        var batch := Batch(old(rows), limit);
        && settled <= |batch|
        && (forall i | 0 <= i < settled :: !Stops(valid, batch[i], publication(i), storeOk(i)))
        && (failed <==> settled < |batch|)
        && (forall i | 0 <= i < settled :: storeOk(i) && (valid(batch[i].payload) ==> publication(i).Confirmed?))
        && (failed ==> !storeOk(settled) || (valid(batch[settled].payload) && !publication(settled).Confirmed?))
        && (failed ==> Stops(valid, batch[settled], publication(settled), storeOk(settled)))
        && sent == |ValidIds(valid, batch[..settled])|
        && published == old(published) + ValidIds(valid, batch[..settled])
                        + (if failed then Arrived(valid, batch[settled], publication(settled)) else [])
        && rows == RowsAfter(valid, old(rows), batch, settled, publication, recorded)
    {
      hide Batch, Updated, Settled, Do, DistinctIds, Exec, InKeyOrder, Stops, Handled, Arrived, RowsAfter, ValidIds;
      sent, failed, settled, path := 0, !fetchOk, 0, [];
      NoSteps(valid, State([], false));
      if failed {
        return;
      }
      ghost var start, table, sofar := State([], false), rows, published;
      var batch := Batch(rows, limit);
      BatchIsSound(rows, limit);
      NothingSettled(valid, rows);
      path := [Fetch(limit)];
      Then(valid, start, [], Fetch(limit));
      FetchStep(valid, start, limit);
      assert [] + path == path && batch[0..] == batch;
      for i := 0 to |batch|
        invariant settled == i && !failed
        invariant forall k | 0 <= k < i :: !Stops(valid, batch[k], publication(k), storeOk(k))
        invariant forall k | 0 <= k < i :: storeOk(k) && (valid(batch[k].payload) ==> publication(k).Confirmed?)
        invariant rows == Settled(valid, table, batch[..i])
        invariant published == sofar + ValidIds(valid, batch[..i]) && sent == |ValidIds(valid, batch[..i])|
        invariant State(batch[i..], false) == Exec(valid, start, path)
      {
        assert batch[..i + 1][..i] == batch[..i] && batch[..i + 1][i] == batch[i];
        assert batch[i..] == [batch[i]] + batch[i + 1..];
        HandledIsSettled(valid, table, batch, i, publication, storeOk(i), recorded);
        StopsWhen(valid, batch[i], publication(i), storeOk(i));
        ghost var steps;
        failed, steps := Handle(batch[i], batch[i + 1..], publication(i), storeOk(i), recorded);
        ExecJoins(valid, start, path, steps);
        path := path + steps;
        if failed {
          RowsAfterKeepsIds(valid, table, batch, i, publication, recorded);
          return;
        }
        if valid(batch[i].payload) {
          sent := sent + 1;
        }
        settled := i + 1;
      }
      assert batch[..|batch|] == batch && batch[|batch|..] == [];
      RowsAfterKeepsIds(valid, table, batch, |batch|, publication, recorded);
    }

    /** One bounded drain at shutdown; what remains is counted up to one batch, and as
        nothing when it cannot be read. */
    method Flush(fetchOk: bool, publication: nat -> Publication, storeOk: nat -> bool, recorded: bool, recountOk: bool)
      returns (sent: nat, remaining: nat, ghost settled: nat)
      requires Valid()
      modifies this
      ensures Valid()
      ensures !fetchOk ==> sent == 0 && rows == old(rows)
      ensures fetchOk ==>
        && settled <= |Batch(old(rows), limit)|
        && sent == |ValidIds(valid, Batch(old(rows), limit)[..settled])|
        && rows == RowsAfter(valid, old(rows), Batch(old(rows), limit), settled, publication, recorded)
      ensures remaining == if recountOk then |Batch(rows, limit)| else 0
    {
      ghost var path;
      var failed;
      sent, failed, settled, path := DrainOnce(fetchOk, publication, storeOk, recorded);
      remaining := if recountOk then |Batch(rows, limit)| else 0;
    }

    /** k drains in a row with a healthy broker and store: n pending rows are gone exactly
        when k is at least ceil(n / batch). */
    method DrainHealthy(k: nat)
      requires Valid() && limit > 0
      modifies this
      ensures Valid()
      ensures rows == Drains(valid, old(rows), limit, k)
      ensures SortedPending(rows) == [] <==> k >= (|SortedPending(old(rows))| + limit - 1) / limit
    {
      hide Settled, SortedPending, DistinctIds, Batch, ValidIds;
      for i := 0 to k
        invariant Valid() && rows == Drains(valid, old(rows), limit, i)
      {
        ghost var before := rows;
        var sent, failed;
        ghost var settled, path;
        sent, failed, settled, path := DrainOnce(true, (n: nat) => Confirmed, (n: nat) => true, true);
        ghost var batch := Batch(before, limit);
        RowsAfterKeepsIds(valid, before, batch, settled, (n: nat) => Confirmed, true);
        assert batch[..|batch|] == batch;
      }
      CeilManyDrainsEmpty(valid, old(rows), limit, k);
    }
  }

  lemma NothingSettled(valid: Payload -> bool, rows: seq<Row>)
    ensures Settled(valid, rows, []) == rows && ValidIds(valid, []) == []
  {
  }

  lemma FetchStep(valid: Payload -> bool, s: Sys, limit: nat)
    ensures s.work == [] ==> Do(valid, s, Fetch(limit)) == s.(work := Batch(s.rows, limit), acked := false)
  {
  }

  lemma QuarantineStep(valid: Payload -> bool, s: Sys, ok: bool)
    requires s.work != [] && !s.acked && !valid(s.work[0].payload)
    ensures Do(valid, s, Quarantine(ok)) ==
      if ok then s.(rows := Updated(s.rows, s.work[0].id, Quarantined, 1), work := s.work[1..]) else s.(work := [])
  {
  }

  lemma PublishStep(valid: Payload -> bool, s: Sys, p: Publication, recorded: bool)
    requires s.work != [] && !s.acked && valid(s.work[0].payload)
    ensures Do(valid, s, Publish(p, recorded)) ==
      var id := s.work[0].id;
      var arrived := if p.Lost? then s.published else s.published + [id];
      if p.Confirmed? then s.(published := arrived, confirmed := s.confirmed + {id}, acked := true)
      else s.(published := arrived, rows := if recorded then Updated(s.rows, id, Pending, 1) else s.rows, work := [])
  {
  }

  lemma MarkStep(valid: Payload -> bool, s: Sys, ok: bool)
    requires s.work != [] && s.acked
    ensures Do(valid, s, MarkSent(ok)) ==
      if ok then s.(rows := Updated(s.rows, s.work[0].id, Sent, 0), work := s.work[1..], acked := false)
      else s.(work := [], acked := false)
  {
  }

  // ----- Healthy drains empty the queue -----------------------------------------------------------

  /** A drain in which nothing fails: the whole batch is settled. */
  function HealthyDrain(valid: Payload -> bool, rows: seq<Row>, limit: nat): seq<Row> {
    Settled(valid, rows, Batch(rows, limit))
  }

  function Drains(valid: Payload -> bool, rows: seq<Row>, limit: nat, k: nat): seq<Row> {
    if k == 0 then rows else HealthyDrain(valid, Drains(valid, rows, limit, k - 1), limit)
  }

  lemma SettledKeepsIds(valid: Payload -> bool, rows: seq<Row>, done: seq<Row>)
    requires DistinctIds(rows)
    ensures DistinctIds(Settled(valid, rows, done))
  {
  }

  /** The queue loses exactly its first batch. */
  lemma DrainTakesThePrefix(valid: Payload -> bool, rows: seq<Row>, limit: nat)
    requires DistinctIds(rows)
    ensures SortedPending(HealthyDrain(valid, rows, limit)) == SortedPending(rows)[|Batch(rows, limit)|..]
  {
    hide Before;
    var q, batch, after := SortedPending(rows), Batch(rows, limit), HealthyDrain(valid, rows, limit);
    var rest := q[|batch|..];
    SettledKeepsIds(valid, rows, batch);
    SortedPendingIsQueue(rows);
    SortedPendingIsQueue(after);
    BatchIsSound(rows, limit);
    BatchIsSound(rows, |q|);
    forall r ensures r in rest <==> r in after && r.status.Pending? {
      RestIsUntouched(valid, rows, limit, r);
    }
    QueueIsUnique(SortedPending(after), rest);
  }

  lemma RestIsUntouched(valid: Payload -> bool, rows: seq<Row>, limit: nat, r: Row)
    requires DistinctIds(rows)
    ensures r in SortedPending(rows)[|Batch(rows, limit)|..] <==>
      r in HealthyDrain(valid, rows, limit) && r.status.Pending?
  {
    hide Before, SortedPending;
    var q, n := SortedPending(rows), |Batch(rows, limit)|;
    SortedPendingIsQueue(rows);
    BatchIsSound(rows, |q|);
    assert q[..n] == Batch(rows, limit);
    TailIsUntouched(valid, rows, q, n, r);
  }

  lemma TailIsUntouched(valid: Payload -> bool, rows: seq<Row>, q: seq<Row>, n: nat, r: Row)
    requires IsQueue(rows, q) && DistinctIds(rows) && DistinctIds(q) && n <= |q|
    ensures r in q[n..] <==> r in Settled(valid, rows, q[..n]) && r.status.Pending?
  {
    hide InKeyOrder;
    var after := Settled(valid, rows, q[..n]);
    if r in q[n..] {
      var k :| n <= k < |q| && q[k] == r;
      assert r in q;
      var i :| 0 <= i < |rows| && rows[i] == r;
      assert r.id !in Ids(q[..n]);
      assert after[i] == r;
    }
    if r in after && r.status.Pending? {
      var i :| 0 <= i < |after| && after[i] == r;
      assert rows[i] == r && r.id !in Ids(q[..n]);
      assert r in q;
      var k :| 0 <= k < |q| && q[k] == r;
      FrontIds(q, n, k);
      assert q[n..][k - n] == r;
    }
  }

  lemma FrontIds(q: seq<Row>, n: nat, k: nat)
    requires n <= |q| && k < |q|
    ensures k < n ==> q[k].id in Ids(q[..n])
  {
    if k < n {
      assert q[..n][k] == q[k];
    }
  }

  /** After k healthy drains exactly the first k batches are gone from the queue. */
  lemma {:induction false} DrainsTakePrefixes(valid: Payload -> bool, rows: seq<Row>, limit: nat, k: nat)
    requires DistinctIds(rows)
    ensures DistinctIds(Drains(valid, rows, limit, k))
    ensures var q := SortedPending(rows);
      SortedPending(Drains(valid, rows, limit, k)) == if k * limit < |q| then q[k * limit..] else []
  {
    hide SortedPending, DistinctIds, Settled;
    if k > 0 {
      DrainsTakePrefixes(valid, rows, limit, k - 1);
      var before := Drains(valid, rows, limit, k - 1);
      assert (k - 1) * limit + limit == k * limit;
      DrainTakesThePrefix(valid, before, limit);
      SettledKeepsIds(valid, before, Batch(before, limit));
    }
  }

  /** Main theorem: n pending rows are gone after k healthy drains exactly when
      k >= ceil(n / batch). */
  lemma CeilManyDrainsEmpty(valid: Payload -> bool, rows: seq<Row>, limit: nat, k: nat)
    requires DistinctIds(rows) && limit > 0
    ensures SortedPending(Drains(valid, rows, limit, k)) == [] <==> k >= (|SortedPending(rows)| + limit - 1) / limit
  {
    DrainsTakePrefixes(valid, rows, limit, k);
    CeilDivides(|SortedPending(rows)|, limit, k);
  }

  lemma CeilDivides(n: nat, d: nat, k: nat)
    requires d > 0
    ensures k * d >= n <==> k >= (n + d - 1) / d
  {
    var c := (n + d - 1) / d;
    assert c * d <= n + d - 1 < c * d + d;
    if k >= c {
      assert k * d >= c * d by { Scales(c, k, d); }
    } else {
      assert (k + 1) * d <= c * d by { Scales(k + 1, c, d); }
      assert (k + 1) * d == k * d + d;
    }
  }

  lemma Scales(a: nat, b: nat, d: nat)
    requires a <= b
    ensures a * d <= b * d
  {
    assert b * d == a * d + (b - a) * d;
  }

  // ----- Backoff between failed drains -----------------------------------------------------------

  const MAX_BACKOFF_MS := 5000

  function NextBackoff(cur: int, base: int): int {
    var next := if cur * 2 > MAX_BACKOFF_MS then MAX_BACKOFF_MS else cur * 2;
    if next < base then base else next
  }

  function BackoffAfter(base: int, failures: nat): int {
    if failures == 0 then base else NextBackoff(BackoffAfter(base, failures - 1), base)
  }

  function Doubled(base: int, k: nat): int { if k == 0 then base else 2 * Doubled(base, k - 1) }

  /** The wait after k failed drains in a row is the base doubled k times, capped at five
      seconds and never below the base. */
  lemma {:induction false} BackoffClosedForm(base: int, failures: nat)
    requires base > 0
    ensures BackoffAfter(base, failures) ==
      if base >= MAX_BACKOFF_MS then base
      else if Doubled(base, failures) > MAX_BACKOFF_MS then MAX_BACKOFF_MS
      else Doubled(base, failures)
    ensures BackoffAfter(base, failures) <= BackoffAfter(base, failures + 1)
    ensures Doubled(base, failures) >= base
  {
    if failures > 0 {
      BackoffClosedForm(base, failures - 1);
    }
  }
}
