/** The Leaderboard projection: the idempotent fold of laps and session events, the
    forward-only session status, the epoch pointer to the current session, and the
    ingest sequence that is reseeded on restart. */
module Leaderboard {
  import opened Base

  type EventId = string
  type SessionId = string
  type MasterId = string

  datatype Status = Implicit | Active | Finished
  datatype Session = Session(epoch: int, status: Status, startedAt: Option<string>, endedAt: Option<string>)
  datatype Best = Best(ms: int, at: string, seqNo: int)
  type Key = (SessionId, MasterId)

  datatype Event =
    | Lap(session: SessionId, master: MasterId, ms: int, at: string)
    | Started(session: SessionId, at: string)
    | Ended(session: SessionId, at: string)

  datatype Tables = Tables(
    inbox: set<EventId>,
    sessions: map<SessionId, Session>,
    standings: map<Key, Best>)

  const EMPTY := Tables({}, map[], map[])

  // ----- Queries ----------------------------------------------------------------------

  function Epochs(sessions: map<SessionId, Session>): set<int> { set s | s in sessions :: sessions[s].epoch }
  function Seqs(standings: map<Key, Best>): set<int> { set k | k in standings :: standings[k].seqNo }

  function NullIf(s: string): Option<string> { if s == "" then None else Some(s) }
  function Coalesce(o: Option<string>, s: string): Option<string> { if o.None? then Some(s) else o }

  /** A blank session id is parked before it reaches the store. */
  predicate Blank(session: SessionId) { TrimSpace(session) == "" }

  // ----- One committed transaction ------------------------------------------------------

  ghost function EnsureSession(sessions: map<SessionId, Session>, s: SessionId, status: Status, startedAt: string,
                               endedAt: string): map<SessionId, Session> {
    if s in sessions then sessions
    else sessions[s := Session(MaxOf(Epochs(sessions)) + 1, status, NullIf(startedAt), NullIf(endedAt))]
  }

  predicate Improves(standings: map<Key, Best>, key: Key, ms: int) {
    key !in standings || ms < standings[key].ms
  }

  ghost function Effect(t: Tables, e: Event, seqNo: int): Tables {
    match e
    case Lap(s, m, ms, at) =>
      t.(sessions := EnsureSession(t.sessions, s, Implicit, "", ""),
         standings := if Improves(t.standings, (s, m), ms) then t.standings[(s, m) := Best(ms, at, seqNo)]
           else t.standings)
    case Started(s, at) =>
      if s !in t.sessions then t.(sessions := EnsureSession(t.sessions, s, Active, at, ""))
      else
        var row := t.sessions[s];
        t.(sessions := t.sessions[s := row.(status := if row.status == Implicit then Active else row.status,
                                            startedAt := Coalesce(row.startedAt, at))])
    case Ended(s, at) =>
      if s !in t.sessions then t.(sessions := EnsureSession(t.sessions, s, Finished, "", at))
      else
        var row := t.sessions[s];
        t.(sessions := t.sessions[s := row.(status := Finished, endedAt := Coalesce(row.endedAt, at))])
  }

  ghost function Apply(t: Tables, id: EventId, e: Event, seqNo: int): Tables {
    if id in t.inbox then t else Effect(t, e, seqNo).(inbox := t.inbox + {id})
  }

  // ----- Every handler run --------------------------------------------------------------

  datatype State = Ingest(tables: Tables, counter: int)

  datatype Step =
    | Attempt(id: EventId, event: Event, commits: bool)
    | Restart

  function SeqFor(h: State, e: Event): int { if e.Lap? then h.counter + 1 else h.counter }

  ghost function Do(h: State, step: Step): State {
    match step
    case Attempt(id, e, commits) =>
      if Blank(e.session) then h else
      // A lap draws its sequence number before the store is called.
      var n := SeqFor(h, e);
      Ingest(if commits then Apply(h.tables, id, e, n) else h.tables, n)
    case Restart => h.(counter := MaxOf(Seqs(h.tables.standings)))
  }

  ghost function Exec(steps: seq<Step>): State {
    if steps == [] then Ingest(EMPTY, 0) else Do(Exec(steps[..|steps| - 1]), steps[|steps| - 1])
  }

  function Ids(steps: seq<Step>): set<EventId> {
    set i | 0 <= i < |steps| && steps[i].Attempt? :: steps[i].id
  }

  /** The run with every redelivery, failed attempt, parked message and restart erased. */
  function Clean(steps: seq<Step>): (r: seq<Step>)
    ensures forall i | 0 <= i < |r| :: r[i].Attempt? && r[i].commits && !Blank(r[i].event.session)
  {
    if steps == [] then [] else
    var done, step := Clean(steps[..|steps| - 1]), steps[|steps| - 1];
    if step.Attempt? && step.commits && !Blank(step.event.session) && step.id !in Ids(done) then done + [step] else done
  }

  // ----- The read side ------------------------------------------------------------------

  datatype Row = Row(master: MasterId, best: Best)
  datatype Board = Waiting | Board(session: SessionId, status: Status, startedAt: Option<string>,
                                   endedAt: Option<string>, rows: seq<Row>)

  /** ORDER BY best_lap_ms, best_lap_at, best_lap_seq. */
  predicate Ahead(a: Best, b: Best) {
    a.ms < b.ms || (a.ms == b.ms && (Lex(a.at, b.at) || (a.at == b.at && a.seqNo < b.seqNo)))
  }

  ghost predicate IsRows(t: Tables, s: SessionId, rows: seq<Row>) {
    && (forall i | 0 <= i < |rows| ::
          (s, rows[i].master) in t.standings && t.standings[(s, rows[i].master)] == rows[i].best)
    && (forall m | (s, m) in t.standings :: exists i :: 0 <= i < |rows| && rows[i].master == m)
    && (forall i, j | 0 <= i < j < |rows| :: Ahead(rows[i].best, rows[j].best))
  }

  predicate IsCurrent(t: Tables, s: SessionId) {
    s in t.sessions && forall other | other in t.sessions :: t.sessions[other].epoch <= t.sessions[s].epoch
  }

  ghost predicate IsBoard(t: Tables, b: Board) {
    match b
    case Waiting => t.sessions == map[]
    case Board(s, status, startedAt, endedAt, rows) =>
      && IsCurrent(t, s)
      && t.sessions[s].status == status && t.sessions[s].startedAt == startedAt && t.sessions[s].endedAt == endedAt
      && IsRows(t, s, rows)
  }

  /** What a viewer sees: the sequence numbers do not show. */
  function Shown(b: Board): Board {
    match b
    case Waiting => Waiting
    case Board(s, status, startedAt, endedAt, rows) => Board(s, status, startedAt, endedAt, ShownRows(rows))
  }

  function ShownRows(rows: seq<Row>): seq<Row> {
    seq(|rows|, i requires 0 <= i < |rows| => rows[i].(best := rows[i].best.(seqNo := 0)))
  }

  // ----- Epochs are 1..n in first-sight order ---------------------------------------------

  /** Distinct sessions in the order the run first committed an event for them. */
  function FirstSight(steps: seq<Step>): seq<SessionId> {
    if steps == [] then [] else
    var seen, step := FirstSight(steps[..|steps| - 1]), steps[|steps| - 1];
    if step.Attempt? && step.event.session !in seen then seen + [step.event.session] else seen
  }

  ghost predicate EpochsAre(sessions: map<SessionId, Session>, order: seq<SessionId>) {
    && (forall s :: s in sessions <==> s in order)
    && (forall i | 0 <= i < |order| :: order[i] in sessions && sessions[order[i]].epoch == i + 1)
  }

  lemma NextEpoch(sessions: map<SessionId, Session>, order: seq<SessionId>)
    requires EpochsAre(sessions, order)
    ensures MaxOf(Epochs(sessions)) == |order|
  {
    var es := Epochs(sessions);
    if order == [] {
      assert sessions == map[];
      assert es == {};
    } else {
      assert sessions[order[|order| - 1]].epoch in es;
      forall e | e in es ensures e <= |order| {
        var s :| s in sessions && sessions[s].epoch == e;
        var i :| 0 <= i < |order| && order[i] == s;
      }
    }
  }

  /** The transaction's effect on sessions: a known one keeps its epoch, a new one gets the next. */
  lemma EffectEpochs(t: Tables, e: Event, seqNo: int, order: seq<SessionId>)
    requires EpochsAre(t.sessions, order)
    ensures EpochsAre(Effect(t, e, seqNo).sessions, if e.session in order then order else order + [e.session])
  {
    NextEpoch(t.sessions, order);
    var after := Effect(t, e, seqNo).sessions;
    if e.session in order {
      assert after.Keys == t.sessions.Keys;
    } else {
      EpochsExtend(t.sessions, order, e.session, after[e.session]);
    }
  }

  lemma EpochsExtend(sessions: map<SessionId, Session>, order: seq<SessionId>, s: SessionId, row: Session)
    requires EpochsAre(sessions, order) && s !in order && row.epoch == |order| + 1
    ensures EpochsAre(sessions[s := row], order + [s])
  {
  }

  // ----- Sequence numbers -----------------------------------------------------------------

  ghost predicate SeqsDistinct(standings: map<Key, Best>) {
    forall k, l | k in standings && l in standings && k != l :: standings[k].seqNo != standings[l].seqNo
  }

  /** Stored sequence numbers are pairwise distinct and never above the counter. */
  ghost predicate SeqsOk(h: State) {
    && h.counter >= 0
    && (forall k | k in h.tables.standings :: h.tables.standings[k].seqNo <= h.counter)
    && SeqsDistinct(h.tables.standings)
    && (forall k | k in h.tables.standings :: h.tables.standings[k].seqNo > 0)
  }

  lemma StepKeepsSeqs(h: State, step: Step)
    requires SeqsOk(h)
    ensures SeqsOk(Do(h, step))
  {
    if step.Restart? {
      var seqs := Seqs(h.tables.standings);
      forall k | k in h.tables.standings ensures h.tables.standings[k].seqNo <= MaxOf(seqs) {
        assert h.tables.standings[k].seqNo in seqs;
      }
      if seqs != {} {
        var k :| k in h.tables.standings && h.tables.standings[k].seqNo == MaxOf(seqs);
      }
    }
  }

  // ----- Redeliveries, failures and restarts are invisible -----------------------------------

  /** Same rows and sessions; sequence numbers may differ but order the rows alike. */
  ghost predicate Alike(a: Tables, b: Tables) {
    a.inbox == b.inbox && a.sessions == b.sessions && AlikeRows(a.standings, b.standings)
  }

  ghost predicate AlikeRows(a: map<Key, Best>, b: map<Key, Best>) {
    && a.Keys == b.Keys
    && (forall k | k in a :: a[k].ms == b[k].ms && a[k].at == b[k].at)
    && (forall k, l | k in a && l in a :: a[k].seqNo < a[l].seqNo <==> b[k].seqNo < b[l].seqNo)
  }

  lemma NewBestKeepsAlike(a: map<Key, Best>, b: map<Key, Best>, key: Key, x: Best, y: Best)
    requires AlikeRows(a, b) && x.ms == y.ms && x.at == y.at
    requires forall k | k in a :: a[k].seqNo < x.seqNo
    requires forall k | k in b :: b[k].seqNo < y.seqNo
    ensures AlikeRows(a[key := x], b[key := y])
  {
  }

  lemma EffectKeepsAlike(a: State, b: State, e: Event)
    requires SeqsOk(a) && SeqsOk(b) && Alike(a.tables, b.tables)
    ensures Alike(Effect(a.tables, e, SeqFor(a, e)), Effect(b.tables, e, SeqFor(b, e)))
  {
    hide AlikeRows, EnsureSession;
    if e.Lap? {
      var key := (e.session, e.master);
      SameImprovement(a.tables, b.tables, key, e.ms);
      NewBestKeepsAlike(a.tables.standings, b.tables.standings, key, Best(e.ms, e.at, a.counter + 1),
        Best(e.ms, e.at, b.counter + 1));
    }
  }

  lemma SameImprovement(a: Tables, b: Tables, key: Key, ms: int)
    requires Alike(a, b)
    ensures Improves(a.standings, key, ms) <==> Improves(b.standings, key, ms)
  {
    assert key in a.standings.Keys <==> key in b.standings.Keys;
  }

  lemma EmptyIsOk()
    ensures SeqsOk(Ingest(EMPTY, 0)) && AlikeRows(map[], map[]) && EpochsAre(map[], [])
  {
  }

  lemma {:induction false} RunIsAlikeItsCleaning(steps: seq<Step>)
    ensures Alike(Exec(steps).tables, Exec(Clean(steps)).tables)
    ensures SeqsOk(Exec(steps)) && SeqsOk(Exec(Clean(steps)))
    ensures Exec(steps).tables.inbox == Ids(Clean(steps))
  {
    hide SeqsOk, AlikeRows, Effect, MaxOf;
    if steps == [] {
      EmptyIsOk();
    } else {
      var front, step := steps[..|steps| - 1], steps[|steps| - 1];
      RunIsAlikeItsCleaning(front);
      StepKeepsSeqs(Exec(front), step);
      var done := Clean(front);
      if Clean(steps) != done {
        var all := done + [step];
        assert all[..|all| - 1] == done;
        StepKeepsSeqs(Exec(done), step);
        EffectKeepsAlike(Exec(front), Exec(done), step.event);
        IdsGrow(done, step);
      }
    }
  }

  lemma IdsGrow(done: seq<Step>, step: Step)
    requires step.Attempt?
    ensures Ids(done + [step]) == Ids(done) + {step.id}
  {
    var all := done + [step];
    assert all[|done|] == step;
    forall id | id in Ids(done) ensures id in Ids(all) {
      var i :| 0 <= i < |done| && done[i].Attempt? && done[i].id == id;
      assert all[i].id == id;
    }
  }

  lemma AheadTotal(a: Best, b: Best)
    ensures !(Ahead(a, b) && Ahead(b, a))
    ensures a.seqNo != b.seqNo ==> Ahead(a, b) || Ahead(b, a)
  {
    LexTotal(a.at, b.at);
  }

  lemma AheadTransitive(a: Best, b: Best, c: Best)
    requires Ahead(a, b) && Ahead(b, c)
    ensures Ahead(a, c)
  {
    if a.ms == b.ms == c.ms && Lex(a.at, b.at) && Lex(b.at, c.at) {
      LexTransitive(a.at, b.at, c.at);
    }
  }

  lemma AlikeAhead(a: Tables, b: Tables, k: Key, l: Key)
    requires Alike(a, b) && k in a.standings && l in a.standings
    ensures Ahead(a.standings[k], a.standings[l]) <==> Ahead(b.standings[k], b.standings[l])
  {
  }

  lemma {:induction false} SamePrefix(a: Tables, xs: seq<Row>, b: Tables, ys: seq<Row>, s: SessionId, n: nat)
    requires Alike(a, b) && IsRows(a, s, xs) && IsRows(b, s, ys)
    requires n <= |xs| && n <= |ys|
    ensures forall i | 0 <= i < n :: xs[i].master == ys[i].master
  {
    hide AlikeRows, Ahead, IsRows;
    if n > 0 {
      SamePrefix(a, xs, b, ys, s, n - 1);
      var x, y := xs[n - 1], ys[n - 1];
      RowIsStanding(a, s, xs, n - 1);
      RowIsStanding(b, s, ys, n - 1);
      if x.master != y.master {
        // Each stands ahead of the other in one of the two orders, which agree.
        SameKeys(a, b);
        LaterRow(b, ys, a, xs, s, n - 1);
        LaterRow(a, xs, b, ys, s, n - 1);
        AlikeAhead(a, b, (s, x.master), (s, y.master));
        AlikeAhead(a, b, (s, y.master), (s, x.master));
        AheadTotal(x.best, a.standings[(s, y.master)]);
      }
    }
  }

  lemma RowIsStanding(t: Tables, s: SessionId, rows: seq<Row>, i: nat)
    requires IsRows(t, s, rows) && i < |rows|
    ensures (s, rows[i].master) in t.standings && t.standings[(s, rows[i].master)] == rows[i].best
  {
  }

  lemma SameKeys(a: Tables, b: Tables)
    requires Alike(a, b)
    ensures a.standings.Keys == b.standings.Keys
  {
  }

  /** The other order's n-th driver comes later here, so it is behind this n-th row. */
  lemma LaterRow(a: Tables, xs: seq<Row>, b: Tables, ys: seq<Row>, s: SessionId, n: nat)
    requires a.standings.Keys == b.standings.Keys
    requires IsRows(a, s, xs) && IsRows(b, s, ys)
    requires n < |xs| && n < |ys| && xs[n].master != ys[n].master
    requires forall i | 0 <= i < n :: xs[i].master == ys[i].master
    ensures (s, ys[n].master) in a.standings && Ahead(xs[n].best, a.standings[(s, ys[n].master)])
  {
    hide Ahead;
    var m := ys[n].master;
    assert (s, m) in b.standings.Keys;
    assert (s, m) in a.standings;
    var i :| 0 <= i < |xs| && xs[i].master == m;
    if i < n {
      assert Ahead(ys[i].best, ys[n].best);
      assert ys[i].best == ys[n].best;
      AheadTotal(ys[i].best, ys[n].best);
    }
  }

  lemma SameLength(a: Tables, xs: seq<Row>, b: Tables, ys: seq<Row>, s: SessionId)
    requires Alike(a, b) && IsRows(a, s, xs) && IsRows(b, s, ys)
    ensures |xs| <= |ys|
  {
    if |ys| < |xs| {
      SamePrefix(a, xs, b, ys, s, |ys|);
      var m := xs[|ys|].master;
      assert (s, m) in a.standings;
      assert (s, m) in b.standings;
      var i :| 0 <= i < |ys| && ys[i].master == m;
      assert xs[i].master == m;
      assert Ahead(xs[i].best, xs[|ys|].best);
      AheadTotal(xs[i].best, xs[|ys|].best);
    }
  }

  lemma AlikeSymmetric(a: Tables, b: Tables)
    requires Alike(a, b)
    ensures Alike(b, a)
  {
  }

  /** Tables that are alike show the same board. */
  lemma AlikeShowTheSame(a: Tables, x: Board, b: Tables, y: Board, order: seq<SessionId>)
    requires Alike(a, b) && IsBoard(a, x) && IsBoard(b, y) && EpochsAre(a.sessions, order)
    ensures Shown(x) == Shown(y)
  {
    if x.Board? {
      CurrentIsUnique(a, x.session, y.session, order);
      AlikeSymmetric(a, b);
      SameLength(a, x.rows, b, y.rows, x.session);
      SameLength(b, y.rows, a, x.rows, x.session);
      SamePrefix(a, x.rows, b, y.rows, x.session, |x.rows|);
      assert ShownRows(x.rows) == ShownRows(y.rows);
    }
  }

  lemma CurrentIsUnique(t: Tables, s: SessionId, s': SessionId, order: seq<SessionId>)
    requires EpochsAre(t.sessions, order) && IsCurrent(t, s) && IsCurrent(t, s')
    ensures s == s'
  {
    var i :| 0 <= i < |order| && order[i] == s;
    var j :| 0 <= j < |order| && order[j] == s';
  }

  lemma {:induction false} RunEpochs(steps: seq<Step>)
    ensures EpochsAre(Exec(steps).tables.sessions, FirstSight(Clean(steps)))
  {
    hide SeqsOk, AlikeRows, Effect, MaxOf, EpochsAre;
    if steps == [] {
      EmptyIsOk();
    } else {
      var front, step := steps[..|steps| - 1], steps[|steps| - 1];
      RunEpochs(front);
      RunIsAlikeItsCleaning(front);
      var done := Clean(front);
      if Clean(steps) != done {
        assert (done + [step])[..|done|] == done;
        EffectEpochs(Exec(front).tables, step.event, SeqFor(Exec(front), step.event), FirstSight(done));
      }
    }
  }

  /** Main theorem: erasing redeliveries, failed attempts and restarts from any handler
      run leaves the same current session, status, timestamps and ordered rows, although
      the stored sequence numbers differ. */
  lemma NoiseIsInvisible(steps: seq<Step>, seen: Board, ideal: Board)
    requires IsBoard(Exec(steps).tables, seen) && IsBoard(Exec(Clean(steps)).tables, ideal)
    ensures Shown(seen) == Shown(ideal)
  {
    RunIsAlikeItsCleaning(steps);
    RunEpochs(steps);
    AlikeShowTheSame(Exec(steps).tables, seen, Exec(Clean(steps)).tables, ideal, FirstSight(Clean(steps)));
  }

  /** The current session is the one seen first last. */
  lemma LatestSeenIsCurrent(steps: seq<Step>, s: SessionId)
    ensures var order := FirstSight(Clean(steps));
      IsCurrent(Exec(steps).tables, s) <==> order != [] && s == order[|order| - 1]
  {
    hide Exec, Clean, FirstSight;
    RunEpochs(steps);
    var order, sessions := FirstSight(Clean(steps)), Exec(steps).tables.sessions;
    if order != [] {
      var last := order[|order| - 1];
      forall other | other in sessions ensures sessions[other].epoch <= sessions[last].epoch {
        var i :| 0 <= i < |order| && order[i] == other;
      }
      if IsCurrent(Exec(steps).tables, s) {
        CurrentIsUnique(Exec(steps).tables, s, last, order);
      }
    }
  }

  // ----- The projection in closed form ---------------------------------------------------------

  predicate IsLap(step: Step, s: SessionId, m: MasterId) {
    step.Attempt? && step.event.Lap? && step.event.session == s && step.event.master == m
  }

  predicate Starts(step: Step, s: SessionId) { step.Attempt? && step.event.Started? && step.event.session == s }
  predicate Ends(step: Step, s: SessionId) { step.Attempt? && step.event.Ended? && step.event.session == s }

  /** `b` carries the minimum of the driver's laps, and the time of the first lap to reach it. */
  ghost predicate IsFirstBest(laps: seq<Step>, s: SessionId, m: MasterId, b: Best) {
    && (forall j | 0 <= j < |laps| && IsLap(laps[j], s, m) :: b.ms <= laps[j].event.ms)
    && exists i :: 0 <= i < |laps| && IsLap(laps[i], s, m) && laps[i].event.ms == b.ms && laps[i].event.at == b.at
                   && forall j | 0 <= j < i && IsLap(laps[j], s, m) :: b.ms < laps[j].event.ms
  }

  ghost predicate HasLap(steps: seq<Step>, s: SessionId, m: MasterId) {
    exists i :: 0 <= i < |steps| && IsLap(steps[i], s, m)
  }

  ghost predicate StandingsAre(standings: map<Key, Best>, done: seq<Step>) {
    forall s, m :: ((s, m) in standings <==> HasLap(done, s, m))
                   && ((s, m) in standings ==> IsFirstBest(done, s, m, standings[(s, m)]))
  }

  ghost predicate HasStart(steps: seq<Step>, s: SessionId) { exists i :: 0 <= i < |steps| && Starts(steps[i], s) }
  ghost predicate HasEnd(steps: seq<Step>, s: SessionId) { exists i :: 0 <= i < |steps| && Ends(steps[i], s) }

  /** The join of the session's events under implicit < active < finished. */
  ghost function StatusOf(steps: seq<Step>, s: SessionId): Status {
    if HasEnd(steps, s) then Finished else if HasStart(steps, s) then Active else Implicit
  }

  /** A stored timestamp is that of the first event of its kind, once there is one. */
  ghost predicate FirstTime(steps: seq<Step>, hit: Step -> bool, at: Option<string>) {
    && (at.None? <==> forall i | 0 <= i < |steps| :: !hit(steps[i]))
    && (at.Some? ==> exists i :: 0 <= i < |steps| && hit(steps[i]) && steps[i].Attempt? && steps[i].event.at == at.value
                                 && forall j | 0 <= j < i :: !hit(steps[j]))
  }

  ghost predicate Stamped(steps: seq<Step>) {
    forall i | 0 <= i < |steps| && steps[i].Attempt? && !steps[i].event.Lap? :: steps[i].event.at != ""
  }

  ghost predicate SessionsAre(sessions: map<SessionId, Session>, done: seq<Step>) {
    forall s | s in sessions :: sessions[s].status == StatusOf(done, s)
  }

  ghost predicate TimesAre(sessions: map<SessionId, Session>, done: seq<Step>) {
    forall s | s in sessions ::
      && FirstTime(done, (x: Step) => Starts(x, s), sessions[s].startedAt)
      && FirstTime(done, (x: Step) => Ends(x, s), sessions[s].endedAt)
  }

  lemma BestAfter(t: Tables, done: seq<Step>, step: Step, seqNo: int, s: SessionId, m: MasterId)
    requires step.Attempt? && StandingsAre(t.standings, done)
    ensures var after, all := Effect(t, step.event, seqNo).standings, done + [step];
      ((s, m) in after <==> HasLap(all, s, m)) && ((s, m) in after ==> IsFirstBest(all, s, m, after[(s, m)]))
  {
    hide EnsureSession, Coalesce;
    var after, all := Effect(t, step.event, seqNo).standings, done + [step];
    assert all[|done|] == step;
    if HasLap(done, s, m) {
      var i :| 0 <= i < |done| && IsLap(done[i], s, m);
      assert IsLap(all[i], s, m);
      var b := t.standings[(s, m)];
      var k :| 0 <= k < |done| && IsLap(done[k], s, m) && done[k].event.ms == b.ms && done[k].event.at == b.at
               && forall j | 0 <= j < k && IsLap(done[j], s, m) :: b.ms < done[j].event.ms;
      assert all[k] == done[k];
    }
  }

  lemma SessionAfter(t: Tables, done: seq<Step>, step: Step, seqNo: int, s: SessionId)
    requires step.Attempt? && SessionsAre(t.sessions, done)
    requires s !in t.sessions ==> !HasStart(done, s) && !HasEnd(done, s)
    ensures var after := Effect(t, step.event, seqNo).sessions;
      s in after ==> after[s].status == StatusOf(done + [step], s)
  {
    var all := done + [step];
    assert all[|done|] == step;
    if HasStart(done, s) {
      var i :| 0 <= i < |done| && Starts(done[i], s);
      assert all[i] == done[i];
    }
    if HasEnd(done, s) {
      var i :| 0 <= i < |done| && Ends(done[i], s);
      assert all[i] == done[i];
    }
  }

  lemma FirstTimeAfter(done: seq<Step>, step: Step, hit: Step -> bool, before: Option<string>, after: Option<string>)
    requires FirstTime(done, hit, before) && step.Attempt?
    requires after == if hit(step) && before.None? then Some(step.event.at) else before
    ensures FirstTime(done + [step], hit, after)
  {
    var all := done + [step];
    assert all[|done|] == step;
    if before.Some? {
      var i :| 0 <= i < |done| && hit(done[i]) && done[i].Attempt? && done[i].event.at == before.value
               && forall j | 0 <= j < i :: !hit(done[j]);
      assert all[i] == done[i];
    }
  }

  lemma TimesAfter(t: Tables, done: seq<Step>, step: Step, seqNo: int, s: SessionId)
    requires step.Attempt? && TimesAre(t.sessions, done) && Stamped([step])
    requires s !in t.sessions ==> !HasStart(done, s) && !HasEnd(done, s)
    ensures var after := Effect(t, step.event, seqNo).sessions;
      s in after ==> && FirstTime(done + [step], (x: Step) => Starts(x, s), after[s].startedAt)
                     && FirstTime(done + [step], (x: Step) => Ends(x, s), after[s].endedAt)
  {
    var after := Effect(t, step.event, seqNo).sessions;
    assert !step.event.Lap? ==> step.event.at != "" by { assert [step][0] == step; }
    if s in after {
      var started := if s in t.sessions then t.sessions[s].startedAt else None;
      var ended := if s in t.sessions then t.sessions[s].endedAt else None;
      FirstTimeAfter(done, step, (x: Step) => Starts(x, s), started, after[s].startedAt);
      FirstTimeAfter(done, step, (x: Step) => Ends(x, s), ended, after[s].endedAt);
    }
  }

  /** Only sessions that some applied event names are stored. */
  lemma {:induction false} SeenSessions(steps: seq<Step>, s: SessionId)
    ensures s in FirstSight(steps) <==> exists i :: 0 <= i < |steps| && steps[i].Attempt? && steps[i].event.session == s
  {
    if steps != [] {
      var front, step := steps[..|steps| - 1], steps[|steps| - 1];
      SeenSessions(front, s);
      if i :| 0 <= i < |front| && front[i].Attempt? && front[i].event.session == s {
        assert steps[i] == front[i];
      }
      if i :| 0 <= i < |steps| && steps[i].Attempt? && steps[i].event.session == s {
        if i < |front| { assert front[i] == steps[i]; }
      }
    }
  }

  /** Step n is the first committed attempt of its id whose session id is not white space alone. */
  predicate FirstOfItsId(steps: seq<Step>, n: nat)
    requires n < |steps|
  {
    Counts(steps[n]) && forall i | 0 <= i < n && Counts(steps[i]) :: steps[i].id != steps[n].id
  }

  predicate Counts(step: Step) { step.Attempt? && step.commits && !AllSpace(step.event.session) }

  ghost predicate HasCounted(steps: seq<Step>, id: EventId) {
    exists i :: 0 <= i < |steps| && Counts(steps[i]) && steps[i].id == id
  }

  lemma HasCountedGrows(front: seq<Step>, step: Step, id: EventId)
    ensures HasCounted(front + [step], id) <==> HasCounted(front, id) || (Counts(step) && step.id == id)
  {
    hide AllSpace;
    var all := front + [step];
    assert all[|front|] == step;
    if HasCounted(front, id) {
      var i :| 0 <= i < |front| && Counts(front[i]) && front[i].id == id;
      assert all[i] == front[i];
    }
  }

  lemma {:induction false} AppliedIds(steps: seq<Step>, id: EventId)
    ensures id in Ids(Clean(steps)) <==> HasCounted(steps, id)
  {
    hide Ids, AllSpace, HasCounted, TrimSpace;
    if steps == [] {
      assert Clean(steps) == [] && !HasCounted([], id) && id !in Ids([]) by { NoIds(id); }
    } else {
      var front, step := steps[..|steps| - 1], steps[|steps| - 1];
      assert steps == front + [step];
      AppliedIds(front, id);
      HasCountedGrows(front, step, id);
      if step.Attempt? {
        TrimsToNothing(step.event.session);
        IdsGrow(Clean(front), step);
      }
    }
  }

  lemma NoIds(id: EventId)
    ensures !HasCounted([], id) && id !in Ids([])
  {
  }

  /** Which attempts are applied: exactly the first of each id. The inbox holds exactly the ids
      that some attempt which counts has. */
  lemma AppliedAreTheFirsts(steps: seq<Step>, id: EventId)
    ensures steps != [] ==>
      Clean(steps) == Clean(steps[..|steps| - 1])
                      + if FirstOfItsId(steps, |steps| - 1) then [steps[|steps| - 1]] else []
    ensures id in Exec(steps).tables.inbox <==> exists i :: 0 <= i < |steps| && Counts(steps[i]) && steps[i].id == id
  {
    hide Exec, AllSpace, Ids, Alike, SeqsOk, TrimSpace;
    RunIsAlikeItsCleaning(steps);
    AppliedIds(steps, id);
    if steps != [] && steps[|steps| - 1].Attempt? {
      var front, step := steps[..|steps| - 1], steps[|steps| - 1];
      AppliedIds(front, step.id);
      TrimsToNothing(step.event.session);
      assert FirstOfItsId(steps, |front|) <==> Counts(step) && !HasCounted(front, step.id) by {
        hide Clean;
        assert forall i | 0 <= i < |front| :: front[i] == steps[i];
      }
    }
  }

  /** Main theorem: after any run, each best is the minimum of the applied laps with the
      time of the first to reach it, each status is the join of the session's events, and
      epochs are 1..n in first-sight order. */
  lemma {:induction false} ClosedForm(steps: seq<Step>)
    ensures var t, done := Exec(steps).tables, Clean(steps);
      && StandingsAre(t.standings, done)
      && EpochsAre(t.sessions, FirstSight(done))
      && SessionsAre(t.sessions, done)
      && (Stamped(done) ==> TimesAre(t.sessions, done))
  {
    hide StandingsAre, SessionsAre, TimesAre, EpochsAre, Effect, MaxOf;
    RunEpochs(steps);
    if steps == [] {
      EmptyIsClosed();
    } else {
      var front, step := steps[..|steps| - 1], steps[|steps| - 1];
      ClosedForm(front);
      RunIsAlikeItsCleaning(front);
      RunEpochs(front);
      if Clean(steps) != Clean(front) {
        ClosedStep(Exec(front), Clean(front), step);
      }
    }
  }

  lemma EmptyIsClosed()
    ensures StandingsAre(map[], []) && SessionsAre(map[], []) && TimesAre(map[], [])
  {
  }

  lemma ClosedStep(h: State, done: seq<Step>, step: Step)
    requires step.Attempt?
    requires StandingsAre(h.tables.standings, done) && SessionsAre(h.tables.sessions, done)
    requires EpochsAre(h.tables.sessions, FirstSight(done))
    requires Stamped(done) ==> TimesAre(h.tables.sessions, done)
    ensures var after, all := Effect(h.tables, step.event, SeqFor(h, step.event)), done + [step];
      && StandingsAre(after.standings, all) && SessionsAre(after.sessions, all)
      && (Stamped(all) ==> TimesAre(after.sessions, all))
  {
    var n := SeqFor(h, step.event);
    var after, all := Effect(h.tables, step.event, n), done + [step];
    forall s, m
      ensures ((s, m) in after.standings <==> HasLap(all, s, m))
        && ((s, m) in after.standings ==> IsFirstBest(all, s, m, after.standings[(s, m)]))
    {
      BestAfter(h.tables, done, step, n, s, m);
    }
    forall s | s in after.sessions ensures after.sessions[s].status == StatusOf(all, s) {
      SeenSessions(done, s);
      SessionAfter(h.tables, done, step, n, s);
    }
    if Stamped(all) {
      StampedParts(done, step);
      forall s | s in after.sessions
        ensures FirstTime(all, (x: Step) => Starts(x, s), after.sessions[s].startedAt)
        ensures FirstTime(all, (x: Step) => Ends(x, s), after.sessions[s].endedAt)
      {
        SeenSessions(done, s);
        TimesAfter(h.tables, done, step, n, s);
      }
    }
  }

  lemma StampedParts(done: seq<Step>, step: Step)
    requires Stamped(done + [step])
    ensures Stamped(done) && Stamped([step])
  {
    var all := done + [step];
    assert all[|done|] == step;
    forall i | 0 <= i < |done| ensures all[i] == done[i] {}
  }

  /** Bests and statuses do not depend on the order in which events were applied. */
  lemma OrderDoesNotMatter(xs: seq<Step>, ys: seq<Step>, s: SessionId, m: MasterId)
    requires forall e :: Applied(xs, e) <==> Applied(ys, e)
    ensures var a, b := Exec(xs).tables, Exec(ys).tables;
      && ((s, m) in a.standings <==> (s, m) in b.standings)
      && ((s, m) in a.standings ==> a.standings[(s, m)].ms == b.standings[(s, m)].ms)
      && (s in a.sessions <==> s in b.sessions)
      && (s in a.sessions ==> a.sessions[s].status == b.sessions[s].status)
  {
    ClosedForm(xs);
    ClosedForm(ys);
    SeenSessions(Clean(xs), s);
    SeenSessions(Clean(ys), s);
    OneWay(xs, ys, s, m);
    OneWay(ys, xs, s, m);
  }

  ghost predicate Applied(steps: seq<Step>, e: Event) {
    exists i :: 0 <= i < |Clean(steps)| && Clean(steps)[i].event == e
  }

  lemma OneWay(xs: seq<Step>, ys: seq<Step>, s: SessionId, m: MasterId)
    requires forall e :: Applied(xs, e) ==> Applied(ys, e)
    ensures HasLap(Clean(xs), s, m) ==> HasLap(Clean(ys), s, m)
    ensures HasStart(Clean(xs), s) ==> HasStart(Clean(ys), s)
    ensures HasEnd(Clean(xs), s) ==> HasEnd(Clean(ys), s)
    ensures (exists i :: 0 <= i < |Clean(xs)| && Clean(xs)[i].event.session == s) ==>
              exists i :: 0 <= i < |Clean(ys)| && Clean(ys)[i].event.session == s
    ensures forall b | IsFirstBest(Clean(ys), s, m, b) ::
      forall i | 0 <= i < |Clean(xs)| && IsLap(Clean(xs)[i], s, m) :: b.ms <= Clean(xs)[i].event.ms
  {
    forall i | 0 <= i < |Clean(xs)|
      ensures exists j :: 0 <= j < |Clean(ys)| && Clean(ys)[j].event == Clean(xs)[i].event
    {
      assert Applied(xs, Clean(xs)[i].event);
    }
  }

  // What a tie leaves to the order.

  /** When the driver's laps that tie for the best all carry one instant, that instant does not
      depend on the order either. */
  lemma TiesOfOneInstant(xs: seq<Step>, ys: seq<Step>, s: SessionId, m: MasterId, at: string)
    requires (s, m) in Exec(xs).tables.standings && forall e :: Applied(xs, e) <==> Applied(ys, e)
    requires forall i | 0 <= i < |Clean(xs)| && IsBestLap(xs, i, s, m) :: Clean(xs)[i].event.at == at
    ensures (s, m) in Exec(ys).tables.standings
    ensures Exec(xs).tables.standings[(s, m)].at == Exec(ys).tables.standings[(s, m)].at == at
  {
    hide Clean, Exec;
    OrderDoesNotMatter(xs, ys, s, m);
    ClosedForm(xs);
    ClosedForm(ys);
    var best, best' := Exec(xs).tables.standings[(s, m)], Exec(ys).tables.standings[(s, m)];
    var i :| 0 <= i < |Clean(xs)| && IsLap(Clean(xs)[i], s, m) && Clean(xs)[i].event.ms == best.ms
             && Clean(xs)[i].event.at == best.at;
    assert IsBestLap(xs, i, s, m);
    var j :| 0 <= j < |Clean(ys)| && IsLap(Clean(ys)[j], s, m) && Clean(ys)[j].event.ms == best'.ms
             && Clean(ys)[j].event.at == best'.at;
    assert Applied(ys, Clean(ys)[j].event);
    var k :| 0 <= k < |Clean(xs)| && Clean(xs)[k].event == Clean(ys)[j].event;
    assert IsBestLap(xs, k, s, m);
  }

  /** Applied lap i of the run ties for the driver's best. */
  ghost predicate IsBestLap(xs: seq<Step>, i: nat, s: SessionId, m: MasterId)
    requires i < |Clean(xs)|
  {
    && IsLap(Clean(xs)[i], s, m) && (s, m) in Exec(xs).tables.standings
    && Clean(xs)[i].event.ms == Exec(xs).tables.standings[(s, m)].ms
  }

  /** Otherwise it does: each tied lap's instant is the one stored after some order of the
      very same events. */
  lemma TieDependsOnOrder(xs: seq<Step>, i: nat, s: SessionId, m: MasterId) returns (ys: seq<Step>)
    requires i < |Clean(xs)| && IsBestLap(xs, i, s, m)
    ensures forall e :: Applied(xs, e) <==> Applied(ys, e)
    ensures (s, m) in Exec(ys).tables.standings && Exec(ys).tables.standings[(s, m)].at == Clean(xs)[i].event.at
  {
    hide Exec, Clean;
    var c := Clean(xs)[i];
    ys := [c] + Clean(xs);
    CleanIdsDistinct(xs);
    FirstComesFirst(c, Clean(xs));
    SameEvents(xs, ys, c);
    OrderDoesNotMatter(xs, ys, s, m);
    ClosedForm(ys);
    assert IsLap(Clean(ys)[0], s, m);
  }

  lemma SameEvents(xs: seq<Step>, ys: seq<Step>, c: Step)
    requires c in Clean(xs) && Leads(Clean(ys), c, Clean(xs))
    ensures forall e :: Applied(xs, e) <==> Applied(ys, e)
  {
    hide Clean;
    forall e ensures Applied(xs, e) <==> Applied(ys, e) {
      if k :| 0 <= k < |Clean(xs)| && Clean(xs)[k].event == e {
        assert Clean(xs)[k] in Clean(ys);
      }
      if k :| 0 <= k < |Clean(ys)| && Clean(ys)[k].event == e {
        assert Clean(ys)[k] in Clean(ys);
      }
    }
  }

  lemma {:induction false} CleanIdsDistinct(xs: seq<Step>)
    ensures forall i, j | 0 <= i < j < |Clean(xs)| :: Clean(xs)[i].id != Clean(xs)[j].id
  {
    if xs != [] {
      CleanIdsDistinct(xs[..|xs| - 1]);
      var done, step := Clean(xs[..|xs| - 1]), xs[|xs| - 1];
      forall i | 0 <= i < |done| && Clean(xs) != done ensures done[i].id != step.id {
        assert done[i].id in Ids(done);
      }
    }
  }

  /** A committed step put in front of distinct committed steps that contain it stays first,
      and the events applied are the same. */
  lemma {:induction false} FirstComesFirst(c: Step, zs: seq<Step>)
    requires c.Attempt? && c.commits && !Blank(c.event.session)
    requires forall k | 0 <= k < |zs| :: zs[k].Attempt? && zs[k].commits && !Blank(zs[k].event.session)
    requires forall k | 0 <= k < |zs| && zs[k].id == c.id :: zs[k] == c
    requires forall j, k | 0 <= j < k < |zs| :: zs[j].id != zs[k].id
    ensures Leads(Clean([c] + zs), c, zs)
  {
    hide Leads;
    var all := [c] + zs;
    if zs == [] {
      AloneLeads(c);
      assert all == [c];
    } else {
      var front, z := zs[..|zs| - 1], zs[|zs| - 1];
      FirstComesFirst(c, front);
      assert all[..|all| - 1] == [c] + front && all[|all| - 1] == z && zs == front + [z];
      StillLeads(Clean([c] + front), c, front, z);
    }
  }

  /** `done` starts with c and has exactly c and the steps of zs. */
  ghost predicate Leads(done: seq<Step>, c: Step, zs: seq<Step>) {
    done != [] && done[0] == c && forall x :: x in done <==> x == c || x in zs
  }

  lemma AloneLeads(c: Step)
    requires c.Attempt? && c.commits && !Blank(c.event.session)
    ensures Leads(Clean([c]), c, [])
  {
    assert [c][..0] == [] && Clean([]) == [] && Ids([]) == {};
  }

  lemma StillLeads(done: seq<Step>, c: Step, zs: seq<Step>, z: Step)
    requires Leads(done, c, zs) && c.Attempt? && z.Attempt? && (z.id == c.id ==> z == c)
    requires forall k | 0 <= k < |zs| :: zs[k].Attempt? && zs[k].id != z.id
    ensures Leads(if z.id in Ids(done) then done else done + [z], c, zs + [z])
  {
    if z.id in Ids(done) {
      var k :| 0 <= k < |done| && done[k].Attempt? && done[k].id == z.id;
      assert done[k] in done;
    }
  }

  /** A start or an end of a known session never moves the current-session pointer and
      never touches the standings: finished stays finished, and no epoch changes. */
  lemma ReplayNeverMovesThePointer(t: Tables, id: EventId, e: Event, seqNo: int, s: SessionId)
    requires !e.Lap? && e.session in t.sessions
    ensures var after := Apply(t, id, e, seqNo);
      && after.standings == t.standings
      && (IsCurrent(after, s) <==> IsCurrent(t, s))
      && (forall k | k in t.sessions :: k in after.sessions && after.sessions[k].epoch == t.sessions[k].epoch)
      && (s in t.sessions && t.sessions[s].status == Finished ==> after.sessions[s].status == Finished)
  {
    var after := Apply(t, id, e, seqNo);
    assert after.sessions.Keys == t.sessions.Keys;
    assert forall k | k in t.sessions :: after.sessions[k].epoch == t.sessions[k].epoch;
  }

  // ----- The store and the handler as they run ----------------------------------------------------

  function Insert(rows: seq<Row>, row: Row): (r: seq<Row>)
    ensures multiset(r) == multiset(rows) + multiset{row}
  {
    if rows == [] then [row]
    else if Ahead(row.best, rows[0].best) then [row] + rows
    else
      assert rows == [rows[0]] + rows[1..];
      [rows[0]] + Insert(rows[1..], row)
  }

  lemma {:induction false} InsertMembers(rows: seq<Row>, row: Row)
    ensures |Insert(rows, row)| == |rows| + 1
    ensures forall x :: x in Insert(rows, row) <==> x in rows || x == row
  {
    hide Ahead;
    if rows != [] {
      InsertMembers(rows[1..], row);
      assert rows == [rows[0]] + rows[1..];
    }
  }

  /** Insertion keeps rows in display order. */
  lemma {:induction false} InsertKeepsOrder(rows: seq<Row>, row: Row)
    requires Sorted(rows)
    ensures Sorted(Insert(rows, row)) && |Insert(rows, row)| == |rows| + 1
    ensures forall x :: x in Insert(rows, row) <==> x in rows || x == row
  {
    hide Ahead, Sorted;
    InsertMembers(rows, row);
    if rows == [] {
      OneIsSorted(row);
    } else if Ahead(row.best, rows[0].best) {
      SortedFront(rows, row);
    } else {
      var head, tail := rows[0], rows[1..];
      assert rows == [head] + tail;
      SortedTail(head, tail);
      InsertKeepsOrder(tail, row);
      InsertMembers(tail, row);
      var rest := Insert(tail, row);
      forall j | 0 <= j < |rest| ensures !Ahead(rest[j].best, head.best) {
        assert rest[j] in rest;
      }
      SortedPrepend(head, rest);
    }
  }

  lemma OneIsSorted(row: Row)
    ensures Sorted([row])
  {
  }

  lemma SortedTail(head: Row, tail: seq<Row>)
    requires Sorted([head] + tail)
    ensures Sorted(tail) && forall x | x in tail :: !Ahead(x.best, head.best)
  {
    hide Ahead;
    var rows := [head] + tail;
    forall i, j | 0 <= i < j < |tail| ensures !Ahead(tail[j].best, tail[i].best) {
      assert rows[i + 1] == tail[i] && rows[j + 1] == tail[j];
    }
    forall x | x in tail ensures !Ahead(x.best, head.best) {
      var k :| 0 <= k < |tail| && tail[k] == x;
      assert rows[k + 1] == x && rows[0] == head;
    }
  }

  lemma SortedPrepend(head: Row, rest: seq<Row>)
    requires Sorted(rest) && forall j | 0 <= j < |rest| :: !Ahead(rest[j].best, head.best)
    ensures Sorted([head] + rest)
  {
    hide Ahead;
  }

  /** Never out of order: nothing is strictly ahead of an earlier row. */
  ghost predicate Sorted(rows: seq<Row>) {
    forall i, j | 0 <= i < j < |rows| :: !Ahead(rows[j].best, rows[i].best)
  }

  /** The display order: the faster lap first; of equal laps the earlier instant; of one instant
      the one ingested first. */
  ghost predicate EarlierFirst(rows: seq<Row>) {
    forall i, j | 0 <= i < j < |rows| ::
      && rows[i].best.ms <= rows[j].best.ms
      && (rows[i].best.ms == rows[j].best.ms ==>
            rows[i].best.at == rows[j].best.at || Lex(rows[i].best.at, rows[j].best.at))
      && (rows[i].best.ms == rows[j].best.ms && rows[i].best.at == rows[j].best.at ==>
            rows[i].best.seqNo <= rows[j].best.seqNo)
  }

  lemma SortedExactly(rows: seq<Row>)
    ensures Sorted(rows) <==> EarlierFirst(rows)
  {
    forall i, j | 0 <= i < j < |rows| {
      LexTotal(rows[i].best.at, rows[j].best.at);
    }
  }

  lemma SortedFront(rows: seq<Row>, row: Row)
    requires rows != [] && Ahead(row.best, rows[0].best)
    ensures Sorted(rows) ==> Sorted([row] + rows)
  {
    if Sorted(rows) {
      forall j | 0 <= j < |rows| ensures !Ahead(rows[j].best, row.best) {
        if Ahead(rows[j].best, row.best) {
          AheadTransitive(rows[j].best, row.best, rows[0].best);
          AheadTotal(rows[0].best, rows[j].best);
        }
      }
    }
  }

  class Store {
    var inbox: set<EventId>
    var sessions: map<SessionId, Session>
    var standings: map<Key, Best>

    function State(): Tables
      reads this
    {
      Tables(inbox, sessions, standings)
    }

    constructor ()
      ensures State() == EMPTY
    {
      inbox, sessions, standings := {}, map[], map[];
    }

    method MaxSeq() returns (max: int)
      ensures max == MaxOf(Seqs(standings))
    {
      max := 0;
      var keys, found := standings.Keys, false;
      while exists k :: k in keys
        invariant keys <= standings.Keys
        invariant !found ==> keys == standings.Keys && max == 0
        invariant found ==> (exists k :: k in standings && standings[k].seqNo == max)
        invariant forall k | k in standings && k !in keys :: found && standings[k].seqNo <= max
        decreases keys
      {
        var k :| k in keys;
        if !found || max < standings[k].seqNo {
          max, found := standings[k].seqNo, true;
        }
        keys := keys - {k};
      }
      if found {
        assert max in Seqs(standings);
      } else {
        assert Seqs(standings) == {};
      }
    }

    method MaxEpoch() returns (max: int)
      ensures max == MaxOf(Epochs(sessions))
    {
      max := 0;
      var keys, found := sessions.Keys, false;
      while exists k :: k in keys
        invariant keys <= sessions.Keys
        invariant !found ==> keys == sessions.Keys && max == 0
        invariant found ==> (exists k :: k in sessions && sessions[k].epoch == max)
        invariant forall k | k in sessions && k !in keys :: found && sessions[k].epoch <= max
        decreases keys
      {
        var k :| k in keys;
        if !found || max < sessions[k].epoch {
          max, found := sessions[k].epoch, true;
        }
        keys := keys - {k};
      }
      if found {
        assert max in Epochs(sessions);
      } else {
        assert Epochs(sessions) == {};
      }
    }

    method EnsureRow(s: SessionId, status: Status, startedAt: string, endedAt: string) returns (created: bool)
      modifies this`sessions
      ensures sessions == EnsureSession(old(sessions), s, status, startedAt, endedAt)
      ensures created <==> s !in old(sessions)
    {
      created := s !in sessions;
      if created {
        var max := MaxEpoch();
        sessions := sessions[s := Session(max + 1, status, NullIf(startedAt), NullIf(endedAt))];
      }
    }

    /** `applied` reports exactly a visible change of sessions or standings. */
    method ApplyLap(id: EventId, e: Event, seqNo: int, commits: bool) returns (applied: bool, duplicate: bool)
      requires e.Lap?
      modifies this
      ensures State() == if commits then Apply(old(State()), id, e, seqNo) else old(State())
      ensures applied <==> sessions != old(sessions) || standings != old(standings)
      ensures duplicate <==> id in old(inbox)
    {
      applied, duplicate := false, id in inbox;
      if duplicate || !commits {
        return;
      }
      var created := EnsureRow(e.session, Implicit, "", "");
      var key := (e.session, e.master);
      if Improves(standings, key, e.ms) {
        standings := standings[key := Best(e.ms, e.at, seqNo)];
        applied := true;
      }
      applied := applied || created;
      inbox := inbox + {id};
    }

    method ApplySessionStarted(id: EventId, e: Event, seqNo: int, commits: bool)
      returns (applied: bool, duplicate: bool)
      requires e.Started?
      modifies this
      ensures State() == if commits then Apply(old(State()), id, e, seqNo) else old(State())
      ensures applied <==> sessions != old(sessions)
      ensures duplicate <==> id in old(inbox)
    {
      applied, duplicate := false, id in inbox;
      if duplicate || !commits {
        return;
      }
      applied := EnsureRow(e.session, Active, e.at, "");
      if !applied {
        var row := sessions[e.session];
        if row.status == Implicit || row.startedAt.None? {
          sessions := sessions[e.session := row.(status := if row.status == Implicit then Active else row.status,
                                                 startedAt := Coalesce(row.startedAt, e.at))];
          assert sessions[e.session] != row;
          applied := true;
        } else {
          assert sessions == sessions[e.session := row];
        }
      }
      inbox := inbox + {id};
    }

    method ApplySessionEnded(id: EventId, e: Event, seqNo: int, commits: bool) returns (applied: bool, duplicate: bool)
      requires e.Ended?
      modifies this
      ensures State() == if commits then Apply(old(State()), id, e, seqNo) else old(State())
      ensures applied <==> sessions != old(sessions)
      ensures duplicate <==> id in old(inbox)
    {
      applied, duplicate := false, id in inbox;
      if duplicate || !commits {
        return;
      }
      applied := EnsureRow(e.session, Finished, "", e.at);
      if !applied {
        var row := sessions[e.session];
        if row.status != Finished || row.endedAt.None? {
          sessions := sessions[e.session := row.(status := Finished, endedAt := Coalesce(row.endedAt, e.at))];
          assert sessions[e.session] != row;
          applied := true;
        } else {
          assert sessions == sessions[e.session := row];
        }
      }
      inbox := inbox + {id};
    }

    /** The session's rows, ordered for display. */
    method RowsOf(s: SessionId) returns (rows: seq<Row>)
      ensures forall x :: x in rows <==> (s, x.master) in standings && standings[(s, x.master)] == x.best
      ensures Sorted(rows) && EarlierFirst(rows)
      ensures forall i, j | 0 <= i < j < |rows| :: rows[i].master != rows[j].master
    {
      rows := [];
      var keys := set k | k in standings && k.0 == s;
      while exists k :: k in keys
        invariant forall k | k in keys :: k in standings && k.0 == s
        invariant forall x :: x in rows <==>
          (s, x.master) in standings && (s, x.master) !in keys && standings[(s, x.master)] == x.best
        invariant Sorted(rows)
        invariant forall i, j | 0 <= i < j < |rows| :: rows[i].master != rows[j].master
        decreases keys
      {
        var k :| k in keys;
        var row := Row(k.1, standings[k]);
        forall i | 0 <= i < |rows| ensures rows[i].master != k.1 {
          assert rows[i] in rows;
        }
        InsertDistinct(rows, row);
        InsertKeepsOrder(rows, row);
        rows := Insert(rows, row);
        keys := keys - {k};
      }
      SortedExactly(rows);
    }

    /** The board of the latest-first-seen session; Waiting when there is none. */
    method CurrentBoard() returns (b: Board)
      ensures SeqsDistinct(standings) ==> IsBoard(State(), b)
      ensures b.Waiting? <==> sessions == map[]
      ensures b.Board? ==> IsCurrent(State(), b.session) && Sorted(b.rows) && EarlierFirst(b.rows)
    {
      b := Waiting;
      var keys := sessions.Keys;
      var current: Option<SessionId> := None;
      while exists k :: k in keys
        invariant keys <= sessions.Keys
        invariant current.None? ==> keys == sessions.Keys
        invariant current.Some? ==> current.value in sessions
        invariant forall k | k in sessions && k !in keys ::
          current.Some? && sessions[k].epoch <= sessions[current.value].epoch
        decreases keys
      {
        var k :| k in keys;
        if current.None? || sessions[current.value].epoch < sessions[k].epoch {
          current := Some(k);
        }
        keys := keys - {k};
      }
      match current
      case None =>
      case Some(s) =>
        var rows := RowsOf(s);
        b := Board(s, sessions[s].status, sessions[s].startedAt, sessions[s].endedAt, rows);
        forall i, j | SeqsDistinct(standings) && 0 <= i < j < |rows| ensures Ahead(rows[i].best, rows[j].best) {
          assert rows[i] in rows && rows[j] in rows;
          AheadTotal(rows[i].best, rows[j].best);
        }
        forall m | (s, m) in standings ensures exists i :: 0 <= i < |rows| && rows[i].master == m {
          assert Row(m, standings[(s, m)]) in rows;
        }
    }
  }

  lemma {:induction false} InsertDistinct(rows: seq<Row>, row: Row)
    requires forall i, j | 0 <= i < j < |rows| :: rows[i].master != rows[j].master
    requires forall i | 0 <= i < |rows| :: rows[i].master != row.master
    ensures forall i, j | 0 <= i < j < |Insert(rows, row)| :: Insert(rows, row)[i].master != Insert(rows, row)[j].master
  {
    if rows != [] && !Ahead(row.best, rows[0].best) {
      InsertDistinct(rows[1..], row);
      assert rows == [rows[0]] + rows[1..];
      var rest := Insert(rows[1..], row);
      forall j | 0 <= j < |rest| ensures rest[j].master != rows[0].master {
        assert rest[j] in rest;
        assert rest[j] in multiset(rest);
        if rest[j] != row {
          assert rest[j] in rows[1..];
        }
      }
    }
  }

  class Handler {
    const store: Store
    var counter: int

    /** Startup: the counter is seeded from the stored maximum. */
    constructor (store: Store)
      ensures this.store == store && counter == MaxOf(Seqs(store.standings))
    {
      this.store := store;
      var max := store.MaxSeq();
      counter := max;
    }

    /** One delivery. A session id of white space alone changes nothing; otherwise a lap draws
        a sequence number, and a committed event seen for the first time is stored. */
    method Process(id: EventId, e: Event, commits: bool)
      modifies this, store
      ensures Ingest(store.State(), counter) == Do(Ingest(old(store.State()), old(counter)), Attempt(id, e, commits))
      ensures AllSpace(e.session) ==> store.State() == old(store.State()) && counter == old(counter)
      ensures !AllSpace(e.session) ==> counter == old(counter) + if e.Lap? then 1 else 0
      ensures !AllSpace(e.session) && (!commits || id in old(store.inbox)) ==> store.State() == old(store.State())
      ensures !AllSpace(e.session) && commits && id !in old(store.inbox) ==>
        && store.inbox == old(store.inbox) + {id}
        && store.sessions.Keys == old(store.sessions.Keys) + {e.session}
        && (e.Lap? ==> StoredLap(old(store.State()), store.State(), e, counter))
        && (!e.Lap? ==> store.standings == old(store.standings))
    {
      hide EnsureSession;
      EnsureAddsTheKey();
      TrimsToNothing(e.session);
      if Blank(e.session) {
        return;
      }
      match e
      case Lap(_, _, _, _) =>
        counter := counter + 1;
        var _, _ := store.ApplyLap(id, e, counter, commits);
      case Started(_, _) =>
        var _, _ := store.ApplySessionStarted(id, e, counter, commits);
      case Ended(_, _) =>
        var _, _ := store.ApplySessionEnded(id, e, counter, commits);
    }
  }

  /** The lap's standing holds the lap, unless it holds a best that is at least as good; no
      other standing changes. */
  predicate StoredLap(before: Tables, after: Tables, e: Event, seqNo: int)
    requires e.Lap?
  {
    var key := (e.session, e.master);
    && after.standings.Keys == before.standings.Keys + {key}
    && (forall k | k in before.standings && k != key :: after.standings[k] == before.standings[k])
    && after.standings[key] ==
       if key in before.standings && before.standings[key].ms <= e.ms then before.standings[key]
       else Best(e.ms, e.at, seqNo)
  }

  lemma EnsureAddsTheKey()
    ensures forall sessions: map<SessionId, Session>, s, status, startedAt, endedAt ::
      EnsureSession(sessions, s, status, startedAt, endedAt).Keys == sessions.Keys + {s}
  {
  }

  // ----- Ranking ---------------------------------------------------------------------------------

  datatype RankedRow = RankedRow(position: nat, master: MasterId, ms: int, isFastest: bool)

  /** Orders the bests and numbers them. `order` is the sorted input. */
  method Rank(bests: seq<Row>) returns (ranked: seq<RankedRow>, ghost order: seq<Row>)
    ensures |ranked| == |bests| == |order| && Sorted(order) && EarlierFirst(order)
    ensures multiset(order) == multiset(bests)
    ensures forall i | 0 <= i < |ranked| :: ranked[i] == RankedRow(i + 1, order[i].master, order[i].best.ms, i == 0)
    ensures forall i, j | 0 <= i < j < |ranked| :: ranked[i].ms <= ranked[j].ms
  {
    var sorted: seq<Row> := [];
    for i := 0 to |bests|
      invariant |sorted| == i && Sorted(sorted)
      invariant multiset(sorted) == multiset(bests[..i])
    {
      assert bests[..i + 1] == bests[..i] + [bests[i]];
      InsertKeepsOrder(sorted, bests[i]);
      sorted := Insert(sorted, bests[i]);
    }
    assert bests[..|bests|] == bests;
    order := sorted;
    SortedExactly(order);
    ranked := [];
    for i := 0 to |sorted|
      invariant |ranked| == i
      invariant forall k | 0 <= k < i :: ranked[k] == RankedRow(k + 1, sorted[k].master, sorted[k].best.ms, k == 0)
    {
      ranked := ranked + [RankedRow(i + 1, sorted[i].master, sorted[i].best.ms, i == 0)];
    }
  }
}
