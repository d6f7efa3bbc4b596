/** First publications in key order: what an enqueue may do to it, exactly. */
module PublishOrder {
  import opened Outbox

  /** The key of a valid row that enters the table is after every published key and after every
      valid key of the batch in hand. Pending rows are sorted anyway, invalid ones never
      published. */
  predicate Above(valid: Payload -> bool, s: Sys, step: Step) {
    Enters(valid, s, step) ==>
      && (forall i | 0 <= i < |s.rows| && s.rows[i].id in s.published :: Before(s.rows[i], step.row))
      && (forall k | 0 <= k < |s.work| && valid(s.work[k].payload) :: Before(s.work[k], step.row))
  }

  predicate Enters(valid: Payload -> bool, s: Sys, step: Step) {
    step.Enqueue? && Enabled(valid, s, step) && valid(step.row.payload) && step.row.id !in Ids(s.rows)
  }

  ghost predicate AllAbove(valid: Payload -> bool, s: Sys, steps: seq<Step>) {
    steps == [] ||
    (AllAbove(valid, s, steps[..|steps| - 1]) && Above(valid, Exec(valid, s, steps[..|steps| - 1]), steps[|steps| - 1]))
  }

  /** A valid row before a published one is published. */
  ghost predicate RowsOrdered(valid: Payload -> bool, s: Sys) {
    forall i, j | 0 <= i < |s.rows| && 0 <= j < |s.rows| && valid(s.rows[i].payload)
      && s.rows[j].id in s.published && Before(s.rows[i], s.rows[j]) ::
      s.rows[i].id in s.published
  }

  /** A valid row that comes before a valid row of the batch and is not published yet comes
      before it in the batch too. */
  ghost predicate WorkOrdered(valid: Payload -> bool, s: Sys) {
    forall i, k | 0 <= i < |s.rows| && 0 <= k < |s.work| && valid(s.rows[i].payload) && valid(s.work[k].payload)
      && s.rows[i].id !in s.published && Before(s.rows[i], s.work[k]) ::
      exists m :: 0 <= m < k && s.work[m].id == s.rows[i].id
  }

  /** The first time an id is published, every id published before has a smaller key. */
  ghost predicate FirstsInOrder(s: Sys) {
    forall m, k, i, j | 0 <= m < k < |s.published| && s.published[k] !in s.published[..k]
                        && 0 <= i < |s.rows| && 0 <= j < |s.rows|
                        && s.rows[i].id == s.published[m] && s.rows[j].id == s.published[k] ::
      Before(s.rows[i], s.rows[j])
  }

  ghost predicate Ordered(valid: Payload -> bool, s: Sys) {
    RowsOrdered(valid, s) && WorkOrdered(valid, s) && FirstsInOrder(s)
  }

  lemma FreshIsUnpublished(valid: Payload -> bool, s: Sys, id: RowId)
    requires Safe(valid, s) && id !in Ids(s.rows)
    ensures id !in s.published
  {
    forall k | 0 <= k < |s.published| ensures s.published[k] != id {
      assert s.published[k] in Ids(s.rows);
    }
  }

  lemma EnqueueKeepsOrder(valid: Payload -> bool, s: Sys, row: Row)
    requires Safe(valid, s) && Ordered(valid, s) && row.id !in Ids(s.rows) && row.status.Pending? && row.attempts == 0
    requires Above(valid, s, Enqueue(row))
    ensures Ordered(valid, s.(rows := s.rows + [row]))
  {
    hide Before, RowsSafe, WorkSafe;
    var s1 := s.(rows := s.rows + [row]);
    FreshIsUnpublished(valid, s, row.id);
    forall i | 0 <= i < |s.rows| && valid(row.payload) && s.rows[i].id in s.published ensures !Before(row, s.rows[i]) {
      BeforeTotal(s.rows[i], row);
    }
    assert RowsOrdered(valid, s1);
    forall k | 0 <= k < |s.work| && valid(row.payload) && valid(s.work[k].payload) ensures !Before(row, s.work[k]) {
      BeforeTotal(s.work[k], row);
    }
    assert WorkOrdered(valid, s1);
    assert FirstsInOrder(s1) by {
      forall i | 0 <= i < |s.rows| ensures s1.rows[i] == s.rows[i] {
      }
    }
  }

  /** Updating a status moves nothing. */
  lemma UpdateKeepsOrder(valid: Payload -> bool, s: Sys, id: RowId, status: Status, bump: nat)
    requires Ordered(valid, s)
    ensures Ordered(valid, s.(rows := Updated(s.rows, id, status, bump)))
  {
    SameRowsKeepOrder(valid, s, Updated(s.rows, id, status, bump));
  }

  lemma SameRowsKeepOrder(valid: Payload -> bool, s: Sys, rows: seq<Row>)
    requires Ordered(valid, s) && |rows| == |s.rows|
    requires forall i | 0 <= i < |rows| ::
      rows[i].id == s.rows[i].id && rows[i].payload == s.rows[i].payload && rows[i].createdAt == s.rows[i].createdAt
    ensures Ordered(valid, s.(rows := rows))
  {
    var s1 := s.(rows := rows);
    forall i, j | 0 <= i < |rows| && 0 <= j < |rows|
      ensures Before(rows[i], rows[j]) <==> Before(s.rows[i], s.rows[j])
    {
    }
    forall i, k | 0 <= i < |rows| && 0 <= k < |s.work|
      ensures Before(rows[i], s.work[k]) <==> Before(s.rows[i], s.work[k])
    {
    }
    KeysDecide(valid, s, s1);
  }

  lemma KeysDecide(valid: Payload -> bool, s: Sys, s1: Sys)
    requires Ordered(valid, s) && |s1.rows| == |s.rows| && s1.work == s.work && s1.published == s.published
    requires forall i | 0 <= i < |s.rows| :: s1.rows[i].id == s.rows[i].id && s1.rows[i].payload == s.rows[i].payload
    requires forall i, j | 0 <= i < |s.rows| && 0 <= j < |s.rows| ::
      Before(s1.rows[i], s1.rows[j]) <==> Before(s.rows[i], s.rows[j])
    requires forall i, k | 0 <= i < |s.rows| && 0 <= k < |s.work| ::
      Before(s1.rows[i], s.work[k]) <==> Before(s.rows[i], s.work[k])
    ensures Ordered(valid, s1)
  {
    hide Before;
    assert RowsOrdered(valid, s1);
    assert FirstsInOrder(s1);
    forall i, k | 0 <= i < |s1.rows| && 0 <= k < |s1.work| && valid(s1.rows[i].payload) && valid(s1.work[k].payload)
      && s1.rows[i].id !in s1.published && Before(s1.rows[i], s1.work[k])
      ensures exists m :: 0 <= m < k && s1.work[m].id == s1.rows[i].id
    {
      assert Before(s.rows[i], s.work[k]);
    }
    assert WorkOrdered(valid, s1);
  }

  lemma FetchKeepsOrder(valid: Payload -> bool, s: Sys, limit: nat)
    requires Safe(valid, s) && Ordered(valid, s)
    ensures Ordered(valid, s.(work := Batch(s.rows, limit), acked := false))
  {
    hide Before;
    var s1, q := s.(work := Batch(s.rows, limit), acked := false), SortedPending(s.rows);
    SortedPendingIsQueue(s.rows);
    forall i, k | 0 <= i < |s.rows| && 0 <= k < |s1.work| && valid(s.rows[i].payload) && valid(s1.work[k].payload)
      && s.rows[i].id !in s.published && Before(s.rows[i], s1.work[k])
      ensures exists m :: 0 <= m < k && s1.work[m].id == s.rows[i].id
    {
      var r := s.rows[i];
      UnpublishedIsPending(valid, s, i);
      assert r in q;
      var m :| 0 <= m < |q| && q[m] == r;
      BeforeTotal(r, q[k]);
      BeforeTotal(r, r);
      assert m < k;
      assert s1.work[m].id == r.id;
    }
    assert WorkOrdered(valid, s1);
  }

  lemma UnpublishedIsPending(valid: Payload -> bool, s: Sys, i: nat)
    requires Safe(valid, s) && i < |s.rows| && valid(s.rows[i].payload) && s.rows[i].id !in s.published
    ensures s.rows[i].status.Pending?
  {
  }

  /** The batch advances past its first row: published, or not publishable. */
  lemma AdvanceKeepsOrder(valid: Payload -> bool, s: Sys)
    requires Safe(valid, s) && Ordered(valid, s) && s.work != []
    requires valid(s.work[0].payload) ==> s.work[0].id in s.published
    ensures Ordered(valid, s.(work := s.work[1..], acked := false))
  {
    hide Before, Safe, RowsOrdered, FirstsInOrder;
    var s1 := s.(work := s.work[1..], acked := false);
    SafeIds(valid, s);
    HeadIsStored(valid, s);
    HistoryOnly(valid, s, s1);
    forall i, k | 0 <= i < |s.rows| && 0 <= k < |s1.work| && valid(s.rows[i].payload) && valid(s1.work[k].payload)
      && s.rows[i].id !in s.published && Before(s.rows[i], s1.work[k])
      ensures exists m :: 0 <= m < k && s1.work[m].id == s.rows[i].id
    {
      assert Before(s.rows[i], s.work[k + 1]);
      var m :| 0 <= m < k + 1 && s.work[m].id == s.rows[i].id;
      SameKey(s.rows, s.rows[i], s.work[0]);
      assert s1.work[m - 1].id == s.rows[i].id;
    }
    assert WorkOrdered(valid, s1);
  }

  lemma HeadIsStored(valid: Payload -> bool, s: Sys)
    requires Safe(valid, s) && s.work != []
    ensures s.work[0] in s.rows
  {
  }

  lemma HistoryOnly(valid: Payload -> bool, s: Sys, t: Sys)
    requires s.rows == t.rows && s.published == t.published
    ensures RowsOrdered(valid, s) <==> RowsOrdered(valid, t)
    ensures FirstsInOrder(s) <==> FirstsInOrder(t)
  {
  }

  lemma DropWorkKeepsOrder(valid: Payload -> bool, s: Sys)
    requires Ordered(valid, s)
    ensures Ordered(valid, s.(work := [], acked := false))
    ensures Ordered(valid, s.(work := []))
  {
  }

  lemma PublishKeepsOrder(valid: Payload -> bool, s: Sys)
    requires Safe(valid, s) && Ordered(valid, s) && s.work != [] && valid(s.work[0].payload)
    ensures Ordered(valid, s.(published := s.published + [s.work[0].id]))
  {
    hide Before;
    var id := s.work[0].id;
    var s1 := s.(published := s.published + [id]);
    assert s.work[0] in s.rows;
    var n :| 0 <= n < |s.rows| && s.rows[n] == s.work[0];
    forall x ensures x in s1.published <==> x in s.published || x == id {
    }
    forall i, j | 0 <= i < |s.rows| && 0 <= j < |s.rows| && valid(s.rows[i].payload)
      && s.rows[j].id in s1.published && Before(s.rows[i], s.rows[j])
      ensures s.rows[i].id in s1.published
    {
      if s.rows[j].id == id {
        // Everything valid before the batch's first row has been published.
        SameKey(s.rows, s.rows[j], s.work[0]);
        assert Before(s.rows[i], s.work[0]);
      }
    }
    assert RowsOrdered(valid, s1);
    assert WorkOrdered(valid, s1);
    FirstPublication(valid, s, n);
  }

  lemma EarlierIsPublished(valid: Payload -> bool, s: Sys, i: nat, j: nat)
    requires RowsOrdered(valid, s) && i < |s.rows| && j < |s.rows| && valid(s.rows[i].payload)
    ensures Before(s.rows[i], s.rows[j]) && s.rows[j].id in s.published ==> s.rows[i].id in s.published
  {
  }

  lemma FirstPublication(valid: Payload -> bool, s: Sys, n: nat)
    requires Safe(valid, s) && Ordered(valid, s) && n < |s.rows| && valid(s.rows[n].payload)
    ensures FirstsInOrder(s.(published := s.published + [s.rows[n].id]))
  {
    hide Before, WorkSafe;
    var id := s.rows[n].id;
    var s1 := s.(published := s.published + [id]);
    forall m, k, i, j | 0 <= m < k < |s1.published| && s1.published[k] !in s1.published[..k]
                        && 0 <= i < |s.rows| && 0 <= j < |s.rows|
                        && s.rows[i].id == s1.published[m] && s.rows[j].id == s1.published[k]
      ensures Before(s.rows[i], s.rows[j])
    {
      if k < |s.published| {
        assert s1.published[..k] == s.published[..k];
      } else {
        assert s1.published[..k] == s.published;
        assert j == n && s.rows[i].id in s.published;
        EarlierIsPublished(valid, s, j, i);
        BeforeTotal(s.rows[i], s.rows[j]);
      }
    }
  }

  lemma StepKeepsOrder(valid: Payload -> bool, s: Sys, step: Step)
    requires Safe(valid, s) && Ordered(valid, s) && Above(valid, s, step)
    ensures Ordered(valid, Do(valid, s, step))
  {
    hide Ordered, RowsSafe, InKeyOrder, Updated, Batch, Before, Above;
    if !Enabled(valid, s, step) {
      return;
    }
    match step
    case Enqueue(row) => if row.id !in Ids(s.rows) { EnqueueKeepsOrder(valid, s, row); }
    case Fetch(limit) => FetchKeepsOrder(valid, s, limit);
    case Quarantine(ok) =>
      AdvanceKeepsOrder(valid, s);
      UpdateKeepsOrder(valid, s.(work := s.work[1..], acked := false), s.work[0].id, Quarantined, 1);
      DropWorkKeepsOrder(valid, s);
    case Publish(publication, recorded) =>
      PublishKeepsOrder(valid, s);
      var mid := if publication.Lost? then s else s.(published := s.published + [s.work[0].id]);
      AckKeepsOrder(valid, mid, s.confirmed + {s.work[0].id});
      UpdateKeepsOrder(valid, mid, s.work[0].id, Pending, 1);
      DropWorkKeepsOrder(valid, mid);
      DropWorkKeepsOrder(valid, mid.(rows := Updated(s.rows, s.work[0].id, Pending, 1)));
    case MarkSent(ok) =>
      AdvanceKeepsOrder(valid, s);
      UpdateKeepsOrder(valid, s.(work := s.work[1..], acked := false), s.work[0].id, Sent, 0);
      DropWorkKeepsOrder(valid, s);
    case Crash => DropWorkKeepsOrder(valid, s);
  }

  lemma AckKeepsOrder(valid: Payload -> bool, s: Sys, confirmed: set<RowId>)
    requires Ordered(valid, s)
    ensures Ordered(valid, s.(confirmed := confirmed, acked := true))
  {
  }

  lemma {:induction false} RunKeepsOrder(valid: Payload -> bool, s: Sys, steps: seq<Step>)
    requires Safe(valid, s) && Ordered(valid, s) && AllAbove(valid, s, steps)
    ensures Ordered(valid, Exec(valid, s, steps))
  {
    hide Safe, Do, Ordered, Above;
    if steps != [] {
      var front, last := steps[..|steps| - 1], steps[|steps| - 1];
      RunKeepsOrder(valid, s, front);
      RelayIsSafe(valid, s, front);
      StepKeepsOrder(valid, Exec(valid, s, front), last);
    }
  }

  /** Main theorem: when each valid row enters above what is published and in hand, the first
      publications happen in key order, whatever fails and however often the relay dies. */
  lemma FirstPublicationsInKeyOrder(valid: Payload -> bool, steps: seq<Step>)
    requires AllAbove(valid, START, steps)
    ensures Ordered(valid, Exec(valid, START, steps))
  {
    StartIsSafe(valid);
    StartIsOrdered(valid);
    RunKeepsOrder(valid, START, steps);
  }

  lemma StartIsOrdered(valid: Payload -> bool)
    ensures Ordered(valid, START)
  {
  }

  /** Each enqueued row's key is after every key already in the table. */
  predicate Rising(s: Sys, step: Step) {
    step.Enqueue? ==> forall i | 0 <= i < |s.rows| :: Before(s.rows[i], step.row)
  }

  /** Rising (created_at, id) keys are enough. */
  lemma RisingIsAbove(valid: Payload -> bool, s: Sys, step: Step)
    requires Safe(valid, s) && Rising(s, step)
    ensures Above(valid, s, step)
  {
    hide Before;
    if step.Enqueue? {
      forall k | 0 <= k < |s.work| ensures Before(s.work[k], step.row) {
        assert s.work[k] in s.rows;
      }
    }
  }

  ghost predicate AllRising(valid: Payload -> bool, s: Sys, steps: seq<Step>) {
    steps == [] ||
    (AllRising(valid, s, steps[..|steps| - 1]) && Rising(Exec(valid, s, steps[..|steps| - 1]), steps[|steps| - 1]))
  }

  lemma {:induction false} RisingRunsAreAbove(valid: Payload -> bool, steps: seq<Step>)
    requires AllRising(valid, START, steps)
    ensures AllAbove(valid, START, steps)
  {
    hide Above, Rising, Do;
    if steps != [] {
      var front := steps[..|steps| - 1];
      RisingRunsAreAbove(valid, front);
      StartIsSafe(valid);
      RelayIsSafe(valid, START, front);
      RisingIsAbove(valid, Exec(valid, START, front), steps[|steps| - 1]);
    }
  }

  /** So rows enqueued with rising keys are first published in key order. */
  lemma RisingKeysPublishInOrder(valid: Payload -> bool, steps: seq<Step>)
    requires AllRising(valid, START, steps)
    ensures FirstsInOrder(Exec(valid, START, steps))
  {
    RisingRunsAreAbove(valid, steps);
    FirstPublicationsInKeyOrder(valid, steps);
  }

  // ----- The converse ------------------------------------------------------------------------------

  lemma {:induction false} PublishedOnlyGrows(valid: Payload -> bool, s: Sys, more: seq<Step>)
    ensures s.published <= Exec(valid, s, more).published
  {
    if more != [] {
      PublishedOnlyGrows(valid, s, more[..|more| - 1]);
    }
  }

  lemma {:induction false} FirstIndex(ids: seq<RowId>, id: RowId) returns (k: nat)
    requires id in ids
    ensures k < |ids| && ids[k] == id && id !in ids[..k]
  {
    var front := ids[..|ids| - 1];
    if id in front {
      k := FirstIndex(front, id);
      assert ids[..k] == front[..k];
    } else {
      k := |ids| - 1;
    }
  }

  lemma InPrefix(some: seq<RowId>, all: seq<RowId>, k: nat)
    requires some <= all && k < |all|
    ensures k < |some| ==> all[k] in some
  {
  }

  /** A row that enters below a published key breaks the order in every run in which it is
      published at all. */
  lemma LateKeyIsPublishedLate(valid: Payload -> bool, s: Sys, i: nat, j: nat, more: seq<Step>)
    requires Safe(valid, s) && i < |s.rows| && j < |s.rows| && Before(s.rows[j], s.rows[i])
    requires s.rows[i].id in s.published && s.rows[j].id !in s.published
    requires s.rows[j].id in Exec(valid, s, more).published
    ensures !FirstsInOrder(Exec(valid, s, more))
  {
    hide Exec;
    var t := Exec(valid, s, more);
    RelayIsSafe(valid, s, more);
    PublishedOnlyGrows(valid, s, more);
    var m :| 0 <= m < |s.published| && s.published[m] == s.rows[i].id;
    var k := FirstIndex(t.published, s.rows[j].id);
    assert t.published[m] == s.rows[i].id;
    InPrefix(s.published, t.published, k);
    BeforeTotal(t.rows[j], t.rows[i]);
    assert Before(t.rows[j], t.rows[i]);
  }

  /** Steps of the relay alone. */
  predicate NoEnqueue(steps: seq<Step>) { forall i | 0 <= i < |steps| :: !steps[i].Enqueue? }

  lemma {:induction false} NoEnqueueIsAbove(valid: Payload -> bool, s: Sys, steps: seq<Step>)
    requires NoEnqueue(steps)
    ensures AllAbove(valid, s, steps)
  {
    if steps != [] {
      NoEnqueueIsAbove(valid, s, steps[..|steps| - 1]);
    }
  }

  lemma RunOn(valid: Payload -> bool, s0: Sys, steps: seq<Step>, s: Sys, step: Step)
    returns (steps': seq<Step>, s': Sys)
    requires Exec(valid, s0, steps) == s && NoEnqueue(steps) && !step.Enqueue? && Safe(valid, s)
    ensures steps' == steps + [step] && s' == Do(valid, s, step)
    ensures Exec(valid, s0, steps') == s' && NoEnqueue(steps') && Safe(valid, s')
  {
    Then(valid, s0, steps, step);
    StepKeepsSafe(valid, s, step);
    steps', s' := steps + [step], Do(valid, s, step);
  }

  /** The relay settles the first row of its batch. */
  lemma SettleHead(valid: Payload -> bool, s0: Sys, steps: seq<Step>, s: Sys) returns (steps': seq<Step>, s': Sys)
    requires Exec(valid, s0, steps) == s && NoEnqueue(steps) && Safe(valid, s) && s.work != []
    ensures Exec(valid, s0, steps') == s' && NoEnqueue(steps') && Safe(valid, s') && s'.work == s.work[1..]
    ensures valid(s.work[0].payload) ==> s.work[0].id in s'.published
    ensures s.published <= s'.published
    ensures forall id | id in s'.published :: id in s.published || id == s.work[0].id
    ensures Follows(s.rows, s'.rows) && |s'.rows| == |s.rows|
  {
    hide Exec, RowsSafe, InKeyOrder;
    steps', s' := steps, s;
    if !valid(s.work[0].payload) {
      StepFollows(valid, s, Quarantine(true));
      steps', s' := RunOn(valid, s0, steps', s', Quarantine(true));
    } else {
      if !s.acked {
        StepFollows(valid, s, Publish(Confirmed, false));
        steps', s' := RunOn(valid, s0, steps', s', Publish(Confirmed, false));
      }
      assert s'.work[0].id in s'.published;
      StepFollows(valid, s', MarkSent(true));
      steps', s' := RunOn(valid, s0, steps', s', MarkSent(true));
    }
  }

  /** The relay works through its batch up to row k. */
  lemma {:induction false} SettleUpTo(valid: Payload -> bool, s0: Sys, steps: seq<Step>, s: Sys, k: nat)
    returns (steps': seq<Step>, s': Sys)
    requires Exec(valid, s0, steps) == s && NoEnqueue(steps) && Safe(valid, s) && k < |s.work|
    ensures Exec(valid, s0, steps') == s' && NoEnqueue(steps') && Safe(valid, s')
    ensures valid(s.work[k].payload) ==> s.work[k].id in s'.published
    ensures s.published <= s'.published
    ensures forall id | id in s'.published :: id in s.published || exists m :: 0 <= m < |s.work| && s.work[m].id == id
    ensures Follows(s.rows, s'.rows) && |s'.rows| == |s.rows|
    decreases k
  {
    hide Exec, Safe;
    steps', s' := SettleHead(valid, s0, steps, s);
    if k > 0 {
      var mid := s';
      steps', s' := SettleUpTo(valid, s0, steps', mid, k - 1);
      assert mid.work[k - 1] == s.work[k];
      forall id | id in s'.published ensures id in s.published || exists m :: 0 <= m < |s.work| && s.work[m].id == id {
        if id !in mid.published {
          var m :| 0 <= m < |mid.work| && mid.work[m].id == id;
          assert s.work[m + 1].id == id;
        }
      }
    }
  }

  /** Any valid row gets published by the relay alone. */
  lemma PublishIt(valid: Payload -> bool, s0: Sys, steps: seq<Step>, s: Sys, n: nat)
    returns (steps': seq<Step>, s': Sys)
    requires Exec(valid, s0, steps) == s && NoEnqueue(steps) && Safe(valid, s)
    requires n < |s.rows| && valid(s.rows[n].payload) && s.rows[n].id !in s.published
    ensures Exec(valid, s0, steps') == s' && NoEnqueue(steps') && s.rows[n].id in s'.published
  {
    hide Exec, Safe, InKeyOrder;
    var row := s.rows[n];
    UnpublishedIsPending(valid, s, n);
    SafeIds(valid, s);
    SortedPendingIsQueue(s.rows);
    var q := SortedPending(s.rows);
    assert row in q;
    var k :| 0 <= k < |q| && q[k] == row;
    steps', s' := RunOn(valid, s0, steps, s, Crash);
    steps', s' := RunOn(valid, s0, steps', s', Fetch(|q|));
    steps', s' := SettleUpTo(valid, s0, steps', s', k);
  }

  lemma SafeIds(valid: Payload -> bool, s: Sys)
    requires Safe(valid, s)
    ensures DistinctIds(s.rows)
  {
  }

  /** Some continuation in which every later row enters properly breaks the order. */
  ghost predicate CanBreak(valid: Payload -> bool, s: Sys) {
    exists more :: AllAbove(valid, s, more) && !FirstsInOrder(Exec(valid, s, more))
  }

  /** Below a published key: publish the new row. */
  lemma BelowPublished(valid: Payload -> bool, s: Sys, path: seq<Step>, t: Sys, i: nat, j: nat)
    requires Safe(valid, s) && NoEnqueue(path) && Exec(valid, s, path) == t && Safe(valid, t)
    requires i < |t.rows| && j < |t.rows| && Before(t.rows[j], t.rows[i]) && valid(t.rows[j].payload)
    requires t.rows[i].id in t.published && t.rows[j].id !in t.published
    ensures CanBreak(valid, s)
  {
    hide Exec, Safe, Before, FirstsInOrder;
    NoSteps(valid, t);
    var more, u := PublishIt(valid, t, [], t, j);
    LateKeyIsPublishedLate(valid, t, i, j, more);
    ExecJoins(valid, s, path, more);
    NoEnqueueIsAbove(valid, s, path + more);
  }

  /** Below a valid key in hand: let the relay publish that one first. */
  lemma BelowInHand(valid: Payload -> bool, s: Sys, k: nat, j: nat)
    requires Safe(valid, s) && k < |s.work| && valid(s.work[k].payload)
    requires j < |s.rows| && valid(s.rows[j].payload) && s.rows[j].id !in s.published && Before(s.rows[j], s.work[k])
    requires forall m | 0 <= m < |s.work| :: s.work[m].id != s.rows[j].id
    ensures CanBreak(valid, s)
  {
    hide Exec;
    NoSteps(valid, s);
    var path, t := SettleUpTo(valid, s, [], s, k);
    assert s.work[k] in s.rows;
    var i :| 0 <= i < |s.rows| && s.rows[i] == s.work[k];
    assert Before(t.rows[j], t.rows[i]);
    BelowPublished(valid, s, path, t, i, j);
  }

  /** Main theorem: from every safe state in which the order has held, a step can lead to a
      publication out of key order if and only if it lets a valid row in below a published
      key or below a valid key of the batch in hand. */
  lemma OrderBreaksExactly(valid: Payload -> bool, s: Sys, step: Step)
    requires Safe(valid, s) && Ordered(valid, s)
    ensures CanBreak(valid, Do(valid, s, step)) <==> !Above(valid, s, step)
  {
    hide Exec, Ordered;
    StepKeepsSafe(valid, s, step);
    if Above(valid, s, step) {
      StepKeepsOrder(valid, s, step);
      var t := Do(valid, s, step);
      forall more | AllAbove(valid, t, more) ensures FirstsInOrder(Exec(valid, t, more)) {
        RunKeepsOrder(valid, t, more);
        OrderedIsInOrder(valid, Exec(valid, t, more));
      }
    } else {
      NotAboveBreaks(valid, s, step);
    }
  }

  lemma OrderedIsInOrder(valid: Payload -> bool, s: Sys)
    requires Ordered(valid, s)
    ensures FirstsInOrder(s)
  {
  }

  lemma NotAboveBreaks(valid: Payload -> bool, s: Sys, step: Step)
    requires Safe(valid, s) && !Above(valid, s, step)
    ensures CanBreak(valid, Do(valid, s, step))
  {
    hide Exec, Before, CanBreak, RowsSafe, InKeyOrder;
    var row, t, j := step.row, Do(valid, s, step), |s.rows|;
    assert t == s.(rows := s.rows + [row]) && t.rows[j] == row;
    StepKeepsSafe(valid, s, step);
    FreshIsUnpublished(valid, s, row.id);
    if i :| 0 <= i < |s.rows| && s.rows[i].id in s.published && !Before(s.rows[i], row) {
      assert s.rows[i].id in Ids(s.rows);
      BeforeTotal(s.rows[i], row);
      assert t.rows[i] == s.rows[i];
      NoSteps(valid, t);
      BelowPublished(valid, t, [], t, i, j);
    } else {
      var k :| 0 <= k < |s.work| && valid(s.work[k].payload) && !Before(s.work[k], row);
      forall m | 0 <= m < |s.work| ensures s.work[m].id != row.id {
        assert s.work[m] in s.rows;
        assert s.work[m].id in Ids(s.rows);
      }
      BeforeTotal(s.work[k], row);
      BelowInHand(valid, t, k, j);
    }
  }

  /** So over whole runs: a step after any proper run can break the order exactly when it is
      not proper itself. */
  lemma OrderBreaksExactlyInRuns(valid: Payload -> bool, steps: seq<Step>, step: Step)
    requires AllAbove(valid, START, steps)
    ensures var s := Exec(valid, START, steps); CanBreak(valid, Do(valid, s, step)) <==> !Above(valid, s, step)
  {
    StartIsSafe(valid);
    RelayIsSafe(valid, START, steps);
    FirstPublicationsInKeyOrder(valid, steps);
    OrderBreaksExactly(valid, Exec(valid, START, steps), step);
  }
}
