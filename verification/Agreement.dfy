/** Timing, Leaderboard and Driver agree on every session: whatever the order and the
    number of deliveries, once each lap of a generated session has been applied, both
    consumers hold what the session's own summary says. */
module Agreement {
  import opened Base
  import Laps
  import opened Capture
  import LB = Leaderboard
  import D = DriverStore
  import R = RunTrace

  type EventId = string

  /** One emitted lap.recorded envelope, with its wire timestamp. */
  datatype LapMessage = LapMessage(id: EventId, master: Token, number: nat, ms: int, at: string)

  /** A generated session on the wire. */
  datatype Wire = Wire(session: SessionId, laps: seq<LapMessage>, summary: seq<SummaryRow>)

  /** The i-th emitted lap travels under the envelope id ids(i). */
  function WireOf(r: Race, drivers: seq<Driver>, ids: nat -> EventId, stamp: int -> string): Wire {
    var laps := LapsIn(EventsTo(r, |r.cs|));
    Wire(r.session,
         seq(|laps|, i requires 0 <= i < |laps| =>
           LapMessage(ids(i), laps[i].master, laps[i].number, laps[i].ms, stamp(laps[i].at))),
         SummaryRows(drivers, TallyTo(r, |r.cs|)))
  }

  ghost predicate AllDifferent(ids: nat -> EventId) { forall i, j | i < j :: ids(i) != ids(j) }

  predicate IsLapOf(w: Wire, k: int, d: Token) { 0 <= k < |w.laps| && w.laps[k].master == d }
  predicate HasRow(w: Wire, d: Token) { exists i :: 0 <= i < |w.summary| && w.summary[i].master == d }

  ghost predicate Numbered(w: Wire, d: Token, x: int) { exists k :: IsLapOf(w, k, d) && w.laps[k].number == x }

  ghost predicate RowMatches(w: Wire, row: SummaryRow) {
    && (exists k :: IsLapOf(w, k, row.master) && w.laps[k].ms == row.best)
    && (forall k | IsLapOf(w, k, row.master) :: row.best <= w.laps[k].ms && 1 <= w.laps[k].number <= row.count)
    && (forall x | 1 <= x <= row.count :: Numbered(w, row.master, x))
  }

  /** What every generated session has: envelopes and (driver, number) pairs are unique,
      and the summary describes exactly the drivers with a lap. */
  ghost predicate Consistent(w: Wire) {
    && (forall j, k | 0 <= j < k < |w.laps| ::
          w.laps[j].id != w.laps[k].id && (w.laps[j].master, w.laps[j].number) != (w.laps[k].master, w.laps[k].number))
    && (forall i | 0 <= i < |w.summary| :: RowMatches(w, w.summary[i]))
    && (forall k | 0 <= k < |w.laps| :: HasRow(w, w.laps[k].master))
  }

  // ----- Every generated session is consistent -------------------------------------------------

  lemma CountsOnlyGrow(r: Race, i: nat)
    requires i < |r.cs|
    ensures forall d | d in r.registered :: WalkTo(r, i).trackers[d].count <= WalkTo(r, i + 1).trackers[d].count
    ensures IsLap(r, i) ==>
      && r.cs[i].token in r.registered
      && FateAt(r, i).outcome.number == WalkTo(r, i + 1).trackers[r.cs[i].token].count
      && FateAt(r, i).outcome.number == WalkTo(r, i).trackers[r.cs[i].token].count + 1
  {
    Unfold(r, i);
  }

  /** Within a session a lap is known by its driver and its number. */
  lemma {:induction false} LapKeysAreUnique(r: Race, n: nat)
    requires n <= |r.cs|
    ensures var laps := LapsIn(EventsTo(r, n));
      && (forall k | 0 <= k < |laps| ::
            laps[k].master in r.registered && laps[k].number <= WalkTo(r, n).trackers[laps[k].master].count)
      && (forall j, k | 0 <= j < k < |laps| && laps[j].master == laps[k].master :: laps[j].number != laps[k].number)
  {
    hide LapsIn, EventsTo, WalkTo, FateAt;
    if n == 0 {
      NoLapsYet(r);
    } else {
      LapKeysAreUnique(r, n - 1);
      LapsGrow(r, n - 1);
      CountsOnlyGrow(r, n - 1);
    }
  }

  ghost predicate Among(laps: seq<Event>, d: Token, o: Laps.Outcome)
    requires forall k | 0 <= k < |laps| :: laps[k].LapRecorded?
  {
    exists k :: 0 <= k < |laps| && laps[k].master == d && o == Laps.Counted(laps[k].number, laps[k].ms)
  }

  /** `own` lists exactly the driver's laps among `laps`. */
  ghost predicate SameLaps(laps: seq<Event>, own: seq<Laps.Outcome>, d: Token)
    requires forall k | 0 <= k < |laps| :: laps[k].LapRecorded?
  {
    && (forall k | 0 <= k < |laps| && laps[k].master == d :: Laps.Counted(laps[k].number, laps[k].ms) in own)
    && (forall i | 0 <= i < |own| :: Among(laps, d, own[i]))
  }

  lemma {:induction false} LapsForAreTheLaps(events: seq<Event>, d: Token)
    ensures SameLaps(LapsIn(events), LapsFor(events, d), d)
  {
    if events != [] {
      var front, e := events[..|events| - 1], events[|events| - 1];
      LapsForAreTheLaps(front, d);
      SameLapsExtends(LapsIn(front), LapsFor(front, d), e, d);
    }
  }

  lemma SameLapsExtends(laps: seq<Event>, own: seq<Laps.Outcome>, e: Event, d: Token)
    requires forall k | 0 <= k < |laps| :: laps[k].LapRecorded?
    requires SameLaps(laps, own, d)
    ensures SameLaps(laps + if e.LapRecorded? then [e] else [],
                     own + if e.LapRecorded? && e.master == d then [Laps.Counted(e.number, e.ms)] else [], d)
  {
    var laps1 := laps + if e.LapRecorded? then [e] else [];
    forall o | Among(laps, d, o) ensures Among(laps1, d, o) {
      var k :| 0 <= k < |laps| && laps[k].master == d && o == Laps.Counted(laps[k].number, laps[k].ms);
      assert laps1[k] == laps[k];
    }
    if e.LapRecorded? {
      assert laps1[|laps|] == e;
    }
  }

  lemma RowDescribesTheLaps(r: Race, drivers: seq<Driver>, w: Wire, row: SummaryRow)
    requires DistinctDrivers(drivers) && r.registered == Masters(drivers)
    requires var laps := LapsIn(EventsTo(r, |r.cs|));
      && |w.laps| == |laps|
      && forall k | 0 <= k < |laps| ::
         w.laps[k].master == laps[k].master && w.laps[k].number == laps[k].number && w.laps[k].ms == laps[k].ms
    requires row in SummaryRows(drivers, TallyTo(r, |r.cs|))
    ensures RowMatches(w, row)
  {
    hide LapsIn, LapsFor, EventsTo, WalkTo, SummaryRows, TallyTo, Laps.WithoutBounces, Laps.Counts, OpsTo;
    var events, d := EventsTo(r, |r.cs|), row.master;
    var laps, own := LapsIn(events), LapsFor(events, d);
    SummaryIsCountAndMin(r, drivers, d);
    LapsForAreTheLaps(events, d);
    RowsAreTheTally(drivers, TallyTo(r, |r.cs|));
    SessionLapArithmetic(r, d, |r.cs|);
    forall x | 1 <= x <= row.count ensures Numbered(w, d, x) {
      assert Among(laps, d, own[x - 1]);
      var k :| 0 <= k < |laps| && laps[k].master == d && own[x - 1] == Laps.Counted(laps[k].number, laps[k].ms);
      assert IsLapOf(w, k, d);
    }
    forall k | IsLapOf(w, k, d) ensures row.best <= w.laps[k].ms && 1 <= w.laps[k].number <= row.count {
      assert Laps.Counted(laps[k].number, laps[k].ms) in own;
    }
    var i :| 0 <= i < |own| && own[i].Counted? && own[i].ms == row.best;
    assert Among(laps, d, own[i]);
    var k :| 0 <= k < |laps| && laps[k].master == d && own[i] == Laps.Counted(laps[k].number, laps[k].ms);
    assert IsLapOf(w, k, d);
  }

  lemma LapsHaveRows(r: Race, drivers: seq<Driver>, k: nat)
    requires DistinctDrivers(drivers) && r.registered == Masters(drivers)
    requires k < |LapsIn(EventsTo(r, |r.cs|))|
    ensures var rows, lap := SummaryRows(drivers, TallyTo(r, |r.cs|)), LapsIn(EventsTo(r, |r.cs|))[k];
      exists i :: 0 <= i < |rows| && rows[i].master == lap.master
  {
    var d := LapsIn(EventsTo(r, |r.cs|))[k].master;
    LapsForAreTheLaps(EventsTo(r, |r.cs|), d);
    SummaryIsCountAndMin(r, drivers, d);
  }

  /** The lap count survives Reset, so no two laps of a session share a key, and the
      summary is read off the emitted laps alone. */
  lemma GeneratedIsConsistent(r: Race, drivers: seq<Driver>, ids: nat -> EventId, stamp: int -> string)
    requires DistinctDrivers(drivers) && r.registered == Masters(drivers) && AllDifferent(ids)
    ensures Consistent(WireOf(r, drivers, ids, stamp))
  {
    hide LapsIn, EventsTo, SummaryRows, TallyTo, WalkTo, RowMatches;
    var w := WireOf(r, drivers, ids, stamp);
    LapKeysAreUnique(r, |r.cs|);
    forall i | 0 <= i < |w.summary| ensures RowMatches(w, w.summary[i]) {
      RowDescribesTheLaps(r, drivers, w, w.summary[i]);
    }
    forall k | 0 <= k < |w.laps| ensures HasRow(w, w.laps[k].master) {
      LapsHaveRows(r, drivers, k);
    }
  }

  // ----- Leaderboard ------------------------------------------------------------------------

  /** The run's deliveries for this session are exactly its envelopes, in any order and
      any number, mixed with anything else. */
  ghost predicate BoardGetsIt(w: Wire, steps: seq<LB.Step>) {
    && (forall i, k | 0 <= i < |steps| && 0 <= k < |w.laps| && steps[i].Attempt? && steps[i].id == w.laps[k].id ::
          steps[i].event == LB.Lap(w.session, w.laps[k].master, w.laps[k].ms, w.laps[k].at))
    && (forall i | 0 <= i < |steps| && steps[i].Attempt? && steps[i].event.Lap?
          && steps[i].event.session == w.session ::
          exists k :: 0 <= k < |w.laps| && w.laps[k].id == steps[i].id)
  }

  lemma {:induction false} CleanComesFromRun(steps: seq<LB.Step>, i: nat)
    requires i < |LB.Clean(steps)|
    ensures LB.Clean(steps)[i] in steps
  {
    var front := steps[..|steps| - 1];
    if i < |LB.Clean(front)| {
      CleanComesFromRun(front, i);
    }
  }

  lemma AppliedLapIsOurs(w: Wire, steps: seq<LB.Step>, i: nat)
    requires BoardGetsIt(w, steps) && i < |LB.Clean(steps)|
    requires LB.Clean(steps)[i].event.Lap? && LB.Clean(steps)[i].event.session == w.session
    ensures var e := LB.Clean(steps)[i].event; exists k :: IsLapOf(w, k, e.master) && w.laps[k].ms == e.ms
  {
    CleanComesFromRun(steps, i);
    var j :| 0 <= j < |steps| && steps[j] == LB.Clean(steps)[i];
    var k :| 0 <= k < |w.laps| && w.laps[k].id == steps[j].id;
    assert IsLapOf(w, k, steps[j].event.master);
  }

  lemma OurLapIsApplied(w: Wire, steps: seq<LB.Step>, k: nat)
    requires BoardGetsIt(w, steps) && k < |w.laps| && w.laps[k].id in LB.Exec(steps).tables.inbox
    ensures exists i :: 0 <= i < |LB.Clean(steps)| && LB.IsLap(LB.Clean(steps)[i], w.session, w.laps[k].master)
                        && LB.Clean(steps)[i].event.ms == w.laps[k].ms
  {
    LB.RunIsAlikeItsCleaning(steps);
    var done := LB.Clean(steps);
    var i :| 0 <= i < |done| && done[i].Attempt? && done[i].id == w.laps[k].id;
    CleanComesFromRun(steps, i);
    var j :| 0 <= j < |steps| && steps[j] == done[i];
    assert LB.IsLap(done[i], w.session, w.laps[k].master);
  }

  /** Main theorem, first half: once every lap of the session is applied, the board holds
      exactly the summary's drivers, each with the summary's best lap. */
  lemma LeaderboardAgrees(w: Wire, steps: seq<LB.Step>, d: Token)
    requires Consistent(w) && BoardGetsIt(w, steps)
    requires forall k | 0 <= k < |w.laps| :: w.laps[k].id in LB.Exec(steps).tables.inbox
    ensures var key, standings := (w.session, d), LB.Exec(steps).tables.standings;
      && (key in standings <==> HasRow(w, d))
      && (forall i | 0 <= i < |w.summary| && w.summary[i].master == d ::
            key in standings && standings[key].ms == w.summary[i].best)
  {
    hide LB.Clean, LB.Exec, BoardGetsIt;
    var done, key, standings := LB.Clean(steps), (w.session, d), LB.Exec(steps).tables.standings;
    LB.ClosedForm(steps);
    if key in standings {
      var i :| 0 <= i < |done| && LB.IsLap(done[i], w.session, d);
      AppliedLapIsOurs(w, steps, i);
    }
    forall i | 0 <= i < |w.summary| && w.summary[i].master == d
      ensures key in standings && standings[key].ms == w.summary[i].best
    {
      var row := w.summary[i];
      assert RowMatches(w, row);
      var k :| IsLapOf(w, k, d) && w.laps[k].ms == row.best;
      OurLapIsApplied(w, steps, k);
      var j :| 0 <= j < |done| && LB.IsLap(done[j], w.session, d) && done[j].event.ms == standings[key].ms;
      AppliedLapIsOurs(w, steps, j);
    }
  }

  // ----- Driver -------------------------------------------------------------------------------

  function RowOf(w: Wire, k: nat): D.LapRow
    requires k < |w.laps|
  {
    var lap := w.laps[k];
    D.LapRow(lap.master, w.session, lap.number, lap.ms, lap.at, lap.id)
  }

  ghost predicate OurEnvelope(w: Wire, env: D.Envelope) {
    && (forall k | 0 <= k < |w.laps| && env.id == w.laps[k].id ::
          env.payload == D.LapRecorded(w.laps[k].master, w.session, w.laps[k].number, w.laps[k].ms, w.laps[k].at))
    && (env.payload.LapRecorded? && env.payload.session == w.session ==>
          exists k :: 0 <= k < |w.laps| && w.laps[k].id == env.id)
  }

  ghost predicate DriverGetsIt(w: Wire, attempts: seq<D.Attempt>) {
    forall i | 0 <= i < |attempts| :: OurEnvelope(w, attempts[i].env)
  }

  /** Driver's stored laps of the session are exactly the emitted laps processed so far. */
  ghost predicate StoredExactly(w: Wire, db: D.Db) {
    && (forall i | 0 <= i < |db.laps| && db.laps[i].session == w.session ::
          exists k :: 0 <= k < |w.laps| && db.laps[i] == RowOf(w, k))
    && (forall k | 0 <= k < |w.laps| && w.laps[k].id in db.inbox :: RowOf(w, k) in db.laps)
    && (forall i | 0 <= i < |db.laps| :: db.laps[i].source in db.inbox)
    && (forall i, j | 0 <= i < j < |db.laps| :: db.laps[i].source != db.laps[j].source)
  }

  /** The primary key never discards a genuine lap. */
  lemma FreshLapIsStored(w: Wire, db: D.Db, k: nat)
    requires Consistent(w) && StoredExactly(w, db) && k < |w.laps| && w.laps[k].id !in db.inbox
    ensures !D.Collides(db.laps, RowOf(w, k))
  {
    hide RowMatches, HasRow;
    var row := RowOf(w, k);
    forall i | 0 <= i < |db.laps|
      ensures !(db.laps[i].master == row.master && db.laps[i].session == row.session && db.laps[i].number == row.number)
    {
      if db.laps[i].session == row.session {
        var j :| 0 <= j < |w.laps| && db.laps[i] == RowOf(w, j);
        assert j != k;
        assert if j < k then (w.laps[j].master, w.laps[j].number) != (w.laps[k].master, w.laps[k].number)
          else (w.laps[k].master, w.laps[k].number) != (w.laps[j].master, w.laps[j].number);
      }
    }
  }

  lemma LapsUntouched(db: D.Db, env: D.Envelope)
    requires env.id !in db.inbox
    ensures D.Process(db, env).inbox == db.inbox + {env.id}
    ensures !env.payload.LapRecorded? ==> D.Process(db, env).laps == db.laps
    ensures env.payload.LapRecorded? ==>
      var p := env.payload;
      var row := D.LapRow(p.master, p.session, p.number, p.ms, p.at, env.id);
      D.Process(db, env).laps == if D.Collides(db.laps, row) then db.laps else db.laps + [row]
  {
    if env.payload.SessionEnded? {
      D.StoreSummariesFrame(db, env.payload.session, env.payload.rows, env.id);
    }
  }

  lemma ProcessKeepsStored(w: Wire, db: D.Db, env: D.Envelope)
    requires Consistent(w) && StoredExactly(w, db) && OurEnvelope(w, env)
    ensures StoredExactly(w, D.Process(db, env))
  {
    hide Consistent, D.Collides, D.Effect;
    if env.id !in db.inbox {
      var p, after := env.payload, D.Process(db, env);
      LapsUntouched(db, env);
      forall k | 0 <= k < |w.laps| && w.laps[k].id in after.inbox ensures RowOf(w, k) in after.laps {
        if w.laps[k].id == env.id {
          FreshLapIsStored(w, db, k);
          assert after.laps[|db.laps|] == RowOf(w, k);
        }
      }
      if after.laps != db.laps {
        var row := D.LapRow(p.master, p.session, p.number, p.ms, p.at, env.id);
        assert after.laps == db.laps + [row];
        if row.session == w.session {
          var k :| 0 <= k < |w.laps| && w.laps[k].id == env.id;
          assert row == RowOf(w, k);
        }
      }
    }
  }

  lemma {:induction false} DriverStoresTheLaps(w: Wire, attempts: seq<D.Attempt>)
    requires Consistent(w) && DriverGetsIt(w, attempts)
    ensures StoredExactly(w, D.Run(attempts))
  {
    hide Consistent, D.Process, OurEnvelope;
    if attempts != [] {
      var front, last := attempts[..|attempts| - 1], attempts[|attempts| - 1];
      DriverStoresTheLaps(w, front);
      ProcessKeepsStored(w, D.Run(front), last.env);
    }
  }

  function RowsOf(laps: seq<D.LapRow>, d: Token, s: SessionId): seq<D.LapRow> {
    if laps == [] then [] else
    var row := laps[|laps| - 1];
    RowsOf(laps[..|laps| - 1], d, s) + if row.master == d && row.session == s then [row] else []
  }

  lemma {:induction false} RowsOfAreTheRows(laps: seq<D.LapRow>, d: Token, s: SessionId)
    requires forall i, j | 0 <= i < j < |laps| :: laps[i].source != laps[j].source
    ensures var rows := RowsOf(laps, d, s);
      && (forall x :: x in rows <==> x in laps && x.master == d && x.session == s)
      && (forall i, j | 0 <= i < j < |rows| :: rows[i].source != rows[j].source)
  {
    if laps != [] {
      var front, last := laps[..|laps| - 1], laps[|laps| - 1];
      RowsOfAreTheRows(front, d, s);
      var rows := RowsOf(front, d, s);
      forall i | 0 <= i < |rows| ensures rows[i].source != last.source {
        assert rows[i] in rows;
      }
    }
  }

  /** Distinct naturals that are exactly 1..n are n of them. */
  lemma {:induction false} CountIsLength(xs: seq<nat>, n: nat)
    requires forall i, j | 0 <= i < j < |xs| :: xs[i] != xs[j]
    requires forall i | 0 <= i < |xs| :: 1 <= xs[i] <= n
    requires forall x | 1 <= x <= n :: x in xs
    ensures |xs| == n
  {
    if n > 0 {
      assert n in xs;
      var i :| 0 <= i < |xs| && xs[i] == n;
      var rest := xs[..i] + xs[i + 1..];
      forall x | 1 <= x <= n - 1 ensures x in rest {
        assert x in xs;
        var j :| 0 <= j < |xs| && xs[j] == x;
        assert rest[if j < i then j else j - 1] == x;
      }
      CountIsLength(rest, n - 1);
    }
  }

  /** The stored row is one of the driver's emitted laps. */
  ghost predicate IsOneOf(w: Wire, d: Token, stored: D.LapRow) {
    exists k :: IsLapOf(w, k, d) && stored == RowOf(w, k)
  }

  lemma StoredCount(w: Wire, stored: seq<D.LapRow>, row: SummaryRow)
    requires Consistent(w) && RowMatches(w, row)
    requires forall k | IsLapOf(w, k, row.master) :: RowOf(w, k) in stored
    requires forall i | 0 <= i < |stored| :: IsOneOf(w, row.master, stored[i])
    requires forall i, j | 0 <= i < j < |stored| :: stored[i].source != stored[j].source
    ensures |stored| == row.count
  {
    hide HasRow;
    var numbers: seq<nat> := seq(|stored|, i requires 0 <= i < |stored| => Number(stored[i]));
    forall i, j | 0 <= i < j < |numbers| ensures numbers[i] != numbers[j] {
      assert IsOneOf(w, row.master, stored[i]) && IsOneOf(w, row.master, stored[j]);
      var k :| IsLapOf(w, k, row.master) && stored[i] == RowOf(w, k);
      var l :| IsLapOf(w, l, row.master) && stored[j] == RowOf(w, l);
      assert k != l;
      assert if k < l then (w.laps[k].master, w.laps[k].number) != (w.laps[l].master, w.laps[l].number)
        else (w.laps[l].master, w.laps[l].number) != (w.laps[k].master, w.laps[k].number);
    }
    forall x | 1 <= x <= row.count ensures x in numbers {
      assert Numbered(w, row.master, x);
      var k :| IsLapOf(w, k, row.master) && w.laps[k].number == x;
      var i :| 0 <= i < |stored| && stored[i] == RowOf(w, k);
      assert numbers[i] == x;
    }
    CountIsLength(numbers, row.count);
  }

  function Number(row: D.LapRow): nat { if row.number < 0 then 0 else row.number }

  /** Once all are processed, the driver's stored laps of the session are its emitted ones. */
  lemma StoredAreTheLaps(w: Wire, db: D.Db, d: Token)
    requires StoredExactly(w, db) && forall k | 0 <= k < |w.laps| :: w.laps[k].id in db.inbox
    ensures var stored := RowsOf(db.laps, d, w.session);
      && (forall k | IsLapOf(w, k, d) :: RowOf(w, k) in stored)
      && (forall i | 0 <= i < |stored| :: IsOneOf(w, d, stored[i]))
      && (forall i, j | 0 <= i < j < |stored| :: stored[i].source != stored[j].source)
  {
    hide RowsOf;
    RowsOfAreTheRows(db.laps, d, w.session);
    var stored := RowsOf(db.laps, d, w.session);
    forall i | 0 <= i < |stored| ensures IsOneOf(w, d, stored[i]) {
      assert stored[i] in stored;
      var j :| 0 <= j < |db.laps| && db.laps[j] == stored[i];
      var k :| 0 <= k < |w.laps| && db.laps[j] == RowOf(w, k);
      assert IsLapOf(w, k, d);
    }
  }

  /** Main theorem, second half: once every lap of the session is processed, Driver's
      history of the session has, for each driver, exactly the summary's number of laps
      and their minimum is the summary's best. */
  lemma DriverAgrees(w: Wire, attempts: seq<D.Attempt>, row: SummaryRow)
    requires Consistent(w) && DriverGetsIt(w, attempts) && row in w.summary
    requires forall k | 0 <= k < |w.laps| :: w.laps[k].id in D.Run(attempts).inbox
    ensures var stored := RowsOf(D.Run(attempts).laps, row.master, w.session);
      && |stored| == row.count
      && (exists i :: 0 <= i < |stored| && stored[i].ms == row.best)
      && (forall i | 0 <= i < |stored| :: row.best <= stored[i].ms)
  {
    hide D.Run, RowsOf, DriverGetsIt, StoredExactly, HasRow;
    var stored, d := RowsOf(D.Run(attempts).laps, row.master, w.session), row.master;
    DriverStoresTheLaps(w, attempts);
    StoredAreTheLaps(w, D.Run(attempts), d);
    assert RowMatches(w, row);
    StoredCount(w, stored, row);
    forall i | 0 <= i < |stored| ensures row.best <= stored[i].ms {
      assert IsOneOf(w, d, stored[i]);
      var k :| IsLapOf(w, k, d) && stored[i] == RowOf(w, k);
    }
    var k :| IsLapOf(w, k, d) && w.laps[k].ms == row.best;
    var i :| 0 <= i < |stored| && stored[i] == RowOf(w, k);
  }

  /** A driver without a summary row has no stored lap of the session either. */
  lemma NoRowNoLaps(w: Wire, attempts: seq<D.Attempt>, d: Token)
    requires Consistent(w) && DriverGetsIt(w, attempts)
    ensures RowsOf(D.Run(attempts).laps, d, w.session) != [] ==> HasRow(w, d)
  {
    hide D.Run, RowsOf, DriverGetsIt, RowMatches;
    var db := D.Run(attempts);
    DriverStoresTheLaps(w, attempts);
    RowsOfAreTheRows(db.laps, d, w.session);
    var stored := RowsOf(db.laps, d, w.session);
    if stored != [] {
      assert stored[0] in stored;
      var j :| 0 <= j < |db.laps| && db.laps[j] == stored[0];
      var k :| 0 <= k < |w.laps| && db.laps[j] == RowOf(w, k);
      assert HasRow(w, w.laps[k].master);
    }
  }

  // ----- Driver's summary row -------------------------------------------------------------------

  function DriverRows(summary: seq<SummaryRow>): (rows: seq<D.SummaryRow>)
    ensures |rows| == |summary|
  {
    seq(|summary|, i requires 0 <= i < |summary| =>
      D.SummaryRow(summary[i].master, Some(summary[i].best), Some(summary[i].count)))
  }

  /** Whatever ends the session on the wire carries its summary. */
  ghost predicate EndsGetIt(w: Wire, attempts: seq<D.Attempt>) {
    forall i | 0 <= i < |attempts| && attempts[i].env.payload.SessionEnded?
      && attempts[i].env.payload.session == w.session ::
      attempts[i].env.payload.rows == DriverRows(w.summary)
  }

  ghost predicate EndApplied(w: Wire, attempts: seq<D.Attempt>) {
    exists k :: 0 <= k < |D.Applied(attempts)| && D.Applied(attempts)[k].payload.SessionEnded?
                && D.Applied(attempts)[k].payload.session == w.session
  }

  lemma {:induction false} AppliedComesFromRun(attempts: seq<D.Attempt>, k: nat) returns (i: nat)
    requires k < |D.Applied(attempts)|
    ensures i < |attempts| && attempts[i].env == D.Applied(attempts)[k]
  {
    var front := attempts[..|attempts| - 1];
    if k < |D.Applied(front)| {
      i := AppliedComesFromRun(front, k);
    } else {
      i := |attempts| - 1;
    }
  }

  /** Two summary rows of one driver say the same. */
  lemma RowsAgree(w: Wire, a: SummaryRow, b: SummaryRow)
    requires RowMatches(w, a) && RowMatches(w, b) && a.master == b.master
    ensures a == b
  {
    NotMore(w, a, b);
    NotMore(w, b, a);
  }

  lemma NotMore(w: Wire, a: SummaryRow, b: SummaryRow)
    requires RowMatches(w, a) && RowMatches(w, b) && a.master == b.master
    ensures b.count <= a.count
  {
    if b.count > 0 {
      assert Numbered(w, b.master, b.count);
    }
  }

  /** Driver's stored summary of the driver and session is exactly the generator's row. */
  ghost predicate SummaryStored(w: Wire, db: D.Db, d: Token) {
    var key := (d, w.session);
    && (key in db.summaries <==> HasRow(w, d))
    && (forall i | 0 <= i < |w.summary| && w.summary[i].master == d ::
          key in db.summaries && db.summaries[key] == D.Result(Some(w.summary[i].best), Some(w.summary[i].count)))
  }

  lemma StoredRowIsOurs(w: Wire, attempts: seq<D.Attempt>, d: Token) returns (i: nat)
    requires EndsGetIt(w, attempts) && (d, w.session) in D.Run(attempts).summaries
    ensures i < |w.summary| && w.summary[i].master == d
    ensures D.Run(attempts).summaries[(d, w.session)] == D.Result(Some(w.summary[i].best), Some(w.summary[i].count))
  {
    hide D.Run, D.Applied, D.LapsFaithful;
    D.HistoryIsFaithful(attempts);
    var key, done := (d, w.session), D.Applied(attempts);
    var result := D.Run(attempts).summaries[key];
    assert D.SummaryDelivered(key, result, done);
    var k :| 0 <= k < |done| && D.SummaryFrom(key, result, done[k]) && D.NoneNamesSummary(done[..k], key);
    var n := AppliedComesFromRun(attempts, k);
    var rows := done[k].payload.rows;
    i :| 0 <= i < |rows| && D.IsFirstRow(d, rows, i) && D.Result(rows[i].best, rows[i].count) == result;
  }

  lemma DriverSummaryAgrees(w: Wire, attempts: seq<D.Attempt>, d: Token)
    requires Consistent(w) && EndsGetIt(w, attempts) && EndApplied(w, attempts)
    ensures SummaryStored(w, D.Run(attempts), d)
  {
    hide D.Run, D.Applied, D.LapsFaithful, RowMatches;
    var key, done := (d, w.session), D.Applied(attempts);
    D.HistoryIsFaithful(attempts);
    var k :| 0 <= k < |done| && done[k].payload.SessionEnded? && done[k].payload.session == w.session;
    var n := AppliedComesFromRun(attempts, k);
    forall i | 0 <= i < |w.summary| && w.summary[i].master == d ensures key in D.Run(attempts).summaries {
      assert done[k].payload.rows[i].master == d;
      assert D.NamesSummary(done[k], key);
    }
    if key in D.Run(attempts).summaries {
      var j := StoredRowIsOurs(w, attempts, d);
      forall i | 0 <= i < |w.summary| && w.summary[i].master == d ensures w.summary[i] == w.summary[j] {
        RowsAgree(w, w.summary[i], w.summary[j]);
      }
    }
  }

  // ----- The three services together -------------------------------------------------------------

  /** A driver is on the board exactly when it has a summary row and exactly when Driver stored
      a lap of it, and board and history agree with that row. */
  ghost predicate Agree(w: Wire, board: LB.Tables, db: D.Db, d: Token) {
    var key, stored := (w.session, d), RowsOf(db.laps, d, w.session);
    && (key in board.standings <==> HasRow(w, d))
    && (stored != [] <==> HasRow(w, d))
    && (forall i | 0 <= i < |w.summary| && w.summary[i].master == d ::
          && key in board.standings && board.standings[key].ms == w.summary[i].best
          && |stored| == w.summary[i].count
          && (exists j :: 0 <= j < |stored| && stored[j].ms == w.summary[i].best)
          && (forall j | 0 <= j < |stored| :: w.summary[i].best <= stored[j].ms))
  }

  /** Both consumers get the session, in any order with duplicates, and have applied each lap. */
  ghost predicate Reached(w: Wire, steps: seq<LB.Step>, attempts: seq<D.Attempt>) {
    && BoardGetsIt(w, steps) && DriverGetsIt(w, attempts)
    && (forall k | 0 <= k < |w.laps| ::
          w.laps[k].id in LB.Exec(steps).tables.inbox && w.laps[k].id in D.Run(attempts).inbox)
  }

  lemma ConsistentSessionsAgree(w: Wire, steps: seq<LB.Step>, attempts: seq<D.Attempt>, d: Token)
    requires Consistent(w) && Reached(w, steps, attempts)
    ensures Agree(w, LB.Exec(steps).tables, D.Run(attempts), d)
    ensures EndsGetIt(w, attempts) && EndApplied(w, attempts) ==> SummaryStored(w, D.Run(attempts), d)
  {
    hide LB.Exec, D.Run, RowsOf, BoardGetsIt, DriverGetsIt, RowMatches, EndsGetIt, EndApplied;
    LeaderboardAgrees(w, steps, d);
    NoRowNoLaps(w, attempts, d);
    forall i | 0 <= i < |w.summary| && w.summary[i].master == d
      ensures var stored, row := RowsOf(D.Run(attempts).laps, d, w.session), w.summary[i];
        && |stored| == row.count
        && (exists j :: 0 <= j < |stored| && stored[j].ms == row.best)
        && (forall j | 0 <= j < |stored| :: row.best <= stored[j].ms)
    {
      DriverAgrees(w, attempts, w.summary[i]);
    }
    if EndsGetIt(w, attempts) && EndApplied(w, attempts) {
      DriverSummaryAgrees(w, attempts, d);
    }
  }

  /** Main theorem: for the session the generator makes of any crossings, board, lap history
      and stored summary agree with its own summary. */
  lemma EveryServiceAgrees(cfg: Config, session: SessionId, base: int, drivers: seq<Driver>, crossings: seq<Crossing>,
                           ids: nat -> EventId, stamp: int -> string, steps: seq<LB.Step>,
                           attempts: seq<D.Attempt>, d: Token)
    requires DistinctDrivers(drivers) && AllDifferent(ids)
    requires Reached(WireOf(RaceOf(cfg, session, base, drivers, crossings), drivers, ids, stamp), steps, attempts)
    ensures var w := WireOf(RaceOf(cfg, session, base, drivers, crossings), drivers, ids, stamp);
      && Agree(w, LB.Exec(steps).tables, D.Run(attempts), d)
      && (EndsGetIt(w, attempts) && EndApplied(w, attempts) ==> SummaryStored(w, D.Run(attempts), d))
  {
    hide WireOf, Reached, Consistent, Agree, SummaryStored, SortByTime;
    var r := RaceOf(cfg, session, base, drivers, crossings);
    GeneratedIsConsistent(r, drivers, ids, stamp);
    ConsistentSessionsAgree(WireOf(r, drivers, ids, stamp), steps, attempts, d);
  }

  // ----- Reconciled sessions -----------------------------------------------------------------------

  function MessageOf(e: Event, id: EventId, stamp: int -> string): LapMessage {
    if e.LapRecorded? then LapMessage(id, e.master, e.number, e.ms, stamp(e.at)) else LapMessage(id, "", 0, 0, "")
  }

  /** A reconciled session on the wire. */
  function ReconciledWire(min: int, master: Token, session: SessionId, base: int, draws: seq<int>,
                          ids: nat -> EventId, stamp: int -> string): Wire {
    var laps := R.ReconciledLaps(min, session, master, base, draws, |draws|);
    Wire(session,
         seq(|laps|, i requires 0 <= i < |laps| => MessageOf(laps[i], ids(i), stamp)),
         if laps == [] then [] else [SummaryRow(master, R.BestMs(laps), |laps|)])
  }

  lemma ReconciledIsConsistent(min: int, master: Token, session: SessionId, base: int, draws: seq<int>,
                               ids: nat -> EventId, stamp: int -> string)
    requires AllDifferent(ids)
    ensures Consistent(ReconciledWire(min, master, session, base, draws, ids, stamp))
  {
    hide R.ReconciledLaps, R.BestMs, Laps.Counts;
    var w := ReconciledWire(min, master, session, base, draws, ids, stamp);
    var laps := R.ReconciledLaps(min, session, master, base, draws, |draws|);
    R.ReconciledLapsAreTheCounts(min, session, master, base, draws, |draws|);
    forall k | 0 <= k < |w.laps|
      ensures w.laps[k] == LapMessage(ids(k), master, k + 1, laps[k].ms, stamp(laps[k].at))
      ensures HasRow(w, w.laps[k].master)
    {
      assert laps[k].LapRecorded? && laps[k].master == master && laps[k].number == k + 1;
      assert w.summary[0].master == master;
    }
    if laps != [] {
      R.BestIsLeast(laps);
      var row := w.summary[0];
      var i :| 0 <= i < |laps| && laps[i].ms == R.BestMs(laps);
      assert IsLapOf(w, i, master) && w.laps[i].ms == row.best;
      forall x | 1 <= x <= row.count ensures Numbered(w, master, x) {
        assert IsLapOf(w, x - 1, master) && w.laps[x - 1].number == x;
      }
      assert RowMatches(w, row);
    }
  }

  /** The same for every reconciled session: its lone driver is on the board and in Driver's
      history with its summary's best and count. */
  lemma ReconciledSessionsAgree(min: int, master: Token, session: SessionId, base: int, draws: seq<int>,
                                ids: nat -> EventId, stamp: int -> string, steps: seq<LB.Step>,
                                attempts: seq<D.Attempt>, d: Token)
    requires AllDifferent(ids)
    requires Reached(ReconciledWire(min, master, session, base, draws, ids, stamp), steps, attempts)
    ensures var w := ReconciledWire(min, master, session, base, draws, ids, stamp);
      && Agree(w, LB.Exec(steps).tables, D.Run(attempts), d)
      && (EndsGetIt(w, attempts) && EndApplied(w, attempts) ==> SummaryStored(w, D.Run(attempts), d))
  {
    hide ReconciledWire, Reached, Consistent, Agree, SummaryStored;
    ReconciledIsConsistent(min, master, session, base, draws, ids, stamp);
    ConsistentSessionsAgree(ReconciledWire(min, master, session, base, draws, ids, stamp), steps, attempts, d);
  }
}
