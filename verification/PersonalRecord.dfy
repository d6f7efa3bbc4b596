/** The personal-record protocol between Timing and Driver. Timing keeps an optimistic
    copy of each driver's record and announces breaks; Driver confirms the canonical
    record; a confirmation overwrites Timing's copy. The bus may delay, reorder and
    duplicate everything. */
module PersonalRecord {
  import opened Base
  import D = DriverStore

  type MasterId = D.MasterId
  type EventId = D.EventId

  datatype Lap = Lap(master: MasterId, session: D.SessionId, number: int, ms: int, at: string)

  // ----- Timing's local copy --------------------------------------------------------

  /** One driver_prs row. */
  datatype Copy = Copy(ms: int, session: Option<D.SessionId>, setAt: string, updatedAt: string)
  datatype Verdict = Verdict(broken: bool, previous: Option<int>)

  function CheckPR(current: Option<int>, ms: int): Verdict {
    match current
    case None => Verdict(true, None)
    case Some(best) => if ms < best then Verdict(true, Some(best)) else Verdict(false, None)
  }

  function Held(copies: map<MasterId, Copy>, master: MasterId): Option<int> {
    if master in copies then Some(copies[master].ms) else None
  }

  function Observed(copies: map<MasterId, Copy>, lap: Lap): map<MasterId, Copy> {
    if CheckPR(Held(copies, lap.master), lap.ms).broken
    then copies[lap.master := Copy(lap.ms, Some(lap.session), lap.at, lap.at)]
    else copies
  }

  /** The refresh's ON CONFLICT clause leaves session_id as it was. */
  function Refreshed(copies: map<MasterId, Copy>, master: MasterId, ms: int, setAt: string,
                     now: string): map<MasterId, Copy> {
    copies[master := Copy(ms, if master in copies then copies[master].session else None, setAt, now)]
  }

  class PrStore {
    var copies: map<MasterId, Copy>

    constructor ()
      ensures copies == map[]
    {
      copies := map[];
    }

    /** Read, detect and advance in one transaction. The copy ends at the minimum of
        what was held and the lap; `previous` is exactly the value beaten. */
    method ObserveLap(lap: Lap, commits: bool) returns (verdict: Verdict)
      modifies this
      ensures copies == if commits then Observed(old(copies), lap) else old(copies)
      ensures commits && (lap.master !in old(copies) || lap.ms < old(copies)[lap.master].ms) ==>
        copies == old(copies)[lap.master := Copy(lap.ms, Some(lap.session), lap.at, lap.at)]
      ensures !commits || (lap.master in old(copies) && old(copies)[lap.master].ms <= lap.ms) ==>
        copies == old(copies) && !verdict.broken
      ensures verdict.broken ==>
        verdict.previous == if lap.master in old(copies) then Some(old(copies)[lap.master].ms) else None
      ensures commits ==> lap.master in copies && copies[lap.master].ms <= lap.ms
      ensures commits && lap.master in old(copies) ==>
        copies[lap.master].ms == if lap.ms < old(copies)[lap.master].ms then lap.ms else old(copies)[lap.master].ms
      ensures verdict.broken <==> copies != old(copies) || (commits && lap.master !in old(copies))
      ensures verdict.previous.Some? ==> verdict.broken && Held(old(copies), lap.master) == verdict.previous
    {
      var before := copies;
      verdict := CheckPR(Held(copies, lap.master), lap.ms);
      if verdict.broken {
        copies := copies[lap.master := Copy(lap.ms, Some(lap.session), lap.at, lap.at)];
      }
      if !commits {
        copies := before;
        verdict := Verdict(false, None);
      }
    }

    /** The row ends at what was announced; an existing row keeps its session, a new one has none. */
    method Refresh(master: MasterId, ms: int, setAt: string, now: string)
      modifies this
      ensures copies == Refreshed(old(copies), master, ms, setAt, now)
      ensures copies.Keys == old(copies).Keys + {master}
      ensures copies[master].ms == ms && copies[master].setAt == setAt && copies[master].updatedAt == now
      ensures copies[master].session == if master in old(copies) then old(copies)[master].session else None
      ensures forall m | m in old(copies) && m != master :: copies[m] == old(copies)[m]
    {
      if master in copies {
        copies := copies[master := copies[master].(ms := ms, setAt := setAt, updatedAt := now)];
      } else {
        copies := copies[master := Copy(ms, None, setAt, now)];
      }
    }
  }

  // ----- The two-party system -------------------------------------------------------

  /** Where Timing's emit path stands: lap.recorded is enqueued before the check, and
      the break is enqueued after the check has committed. */
  datatype Pc = Idle | Check(lap: Lap) | Announce(lap: Lap)

  /** What last wrote a driver's copy: a lap's own check, or the refresh with announcement k. */
  datatype Write = ByCheck(lap: Lap) | ByRefresh(k: nat)

  /** `sent` is everything ever published: any of it may be delivered at any time, any number
      of times. The fields below `driver` are histories that no step reads. */
  datatype Sys = Sys(
    pc: Pc,
    copies: map<MasterId, Copy>,
    sent: map<EventId, D.Payload>,
    driver: D.Db,
    observed: seq<Lap>,            // laps whose check has run
    skipped: seq<Lap>,             // laps whose check a crash cut off
    lost: seq<Lap>,                // observed laps whose announcement a crash cut off
    writes: map<MasterId, Write>,
    refreshed: set<nat>,           // announcements that reached Timing
    latest: map<MasterId, nat>,    // the last of them, per driver
    reordered: set<MasterId>)      // drivers with a refresh older than one before it

  const START := Sys(Idle, map[], map[], D.EMPTY, [], [], [], map[], {}, map[], {})

  datatype Step =
    | RecordLap(id: EventId, lap: Lap)
    | RunCheck
    | AnnounceBreak(id: EventId)
    | Publish(id: EventId, payload: D.Payload)
    | Deliver(id: EventId, commits: bool)
    | Refresh(k: nat, now: string)
    | Crash

  predicate Enabled(s: Sys, step: Step) {
    match step
    case RecordLap(id, _) => s.pc.Idle? && id !in s.sent
    case RunCheck => s.pc.Check?
    case AnnounceBreak(id) => s.pc.Announce? && id !in s.sent
    case Publish(id, payload) => id !in s.sent && (payload.SessionEnded? || payload.IdentityResolved?)
    case Deliver(id, _) => id in s.sent
    case Refresh(k, _) => k < |s.driver.outbox| && s.driver.outbox[k].RecordUpdated?
    case Crash => true
  }

  function Do(s: Sys, step: Step): Sys
    requires Enabled(s, step)
  {
    match step
    case RecordLap(id, lap) =>
      s.(sent := s.sent[id := D.LapRecorded(lap.master, lap.session, lap.number, lap.ms, lap.at)], pc := Check(lap))
    case RunCheck =>
      var lap, broken := s.pc.lap, CheckPR(Held(s.copies, s.pc.lap.master), s.pc.lap.ms).broken;
      s.(copies := Observed(s.copies, lap), observed := s.observed + [lap],
         writes := if broken then s.writes[lap.master := ByCheck(lap)] else s.writes,
         pc := if broken then Announce(lap) else Idle)
    case AnnounceBreak(id) =>
      var lap := s.pc.lap;
      s.(sent := s.sent[id := D.RecordBroken(lap.master, lap.session, lap.ms, lap.at)], pc := Idle)
    case Publish(id, payload) => s.(sent := s.sent[id := payload])
    case Deliver(id, commits) =>
      if commits then s.(driver := D.Process(s.driver, D.Envelope(id, s.sent[id]))) else s
    case Refresh(k, now) =>
      var f := s.driver.outbox[k];
      s.(copies := Refreshed(s.copies, f.master, f.ms, f.setAt, now),
         writes := s.writes[f.master := ByRefresh(k)],
         refreshed := s.refreshed + {k}, latest := s.latest[f.master := k],
         reordered := if f.master in s.latest && k < s.latest[f.master] then s.reordered + {f.master} else s.reordered)
    case Crash =>
      // Timing restarts: its tables stay, the emission in hand is gone.
      s.(pc := Idle,
         skipped := if s.pc.Check? then s.skipped + [s.pc.lap] else s.skipped,
         lost := if s.pc.Announce? then s.lost + [s.pc.lap] else s.lost)
  }

  /** The state after a run of steps; None when some step was not enabled. */
  function Exec(steps: seq<Step>): Option<Sys> {
    if steps == [] then Some(START) else
    var before, step := Exec(steps[..|steps| - 1]), steps[|steps| - 1];
    if before.Some? && Enabled(before.value, step) then Some(Do(before.value, step)) else None
  }

  // ----- The inductive invariant ----------------------------------------------------

  ghost predicate Among(laps: seq<Lap>, master: MasterId, ms: int) {
    exists i :: 0 <= i < |laps| && laps[i].master == master && laps[i].ms == ms
  }

  ghost predicate BelowAmong(laps: seq<Lap>, master: MasterId, ms: int) {
    exists i :: 0 <= i < |laps| && laps[i].master == master && laps[i].ms <= ms
  }

  lemma AmongGrows(laps: seq<Lap>, lap: Lap, master: MasterId, ms: int)
    ensures Among(laps, master, ms) || (lap.master == master && lap.ms == ms) ==> Among(laps + [lap], master, ms)
    ensures BelowAmong(laps, master, ms) || (lap.master == master && lap.ms <= ms) ==>
      BelowAmong(laps + [lap], master, ms)
  {
    var all := laps + [lap];
    assert all[|laps|] == lap;
    if i :| 0 <= i < |laps| && laps[i].master == master && laps[i].ms == ms {
      assert all[i] == laps[i];
    }
    if i :| 0 <= i < |laps| && laps[i].master == master && laps[i].ms <= ms {
      assert all[i] == laps[i];
    }
  }

  /** Some lap of this driver, recorded by Timing, took exactly `ms`. */
  ghost predicate IsLapTime(s: Sys, master: MasterId, ms: int) {
    || Among(s.observed, master, ms)
    || Among(s.skipped, master, ms)
    || (s.pc.Check? && s.pc.lap.master == master && s.pc.lap.ms == ms)
  }

  ghost predicate BreakSent(s: Sys, id: EventId, master: MasterId) {
    id in s.sent && s.sent[id].RecordBroken? && s.sent[id].master == master
  }

  /** Driver's record is at or below `ms`, or a break at or below it is published, about to
      be, or was lost to a crash. */
  ghost predicate Covered(s: Sys, master: MasterId, ms: int) {
    || (master in s.driver.records && s.driver.records[master].ms <= ms)
    || (exists id :: BreakSent(s, id, master) && s.sent[id].ms <= ms)
    || (s.pc.Announce? && s.pc.lap.master == master && s.pc.lap.ms <= ms)
    || BelowAmong(s.lost, master, ms)
  }

  ghost predicate Sound(s: Sys) {
    && (forall id | id in s.sent && (s.sent[id].LapRecorded? || s.sent[id].RecordBroken?) ::
          IsLapTime(s, s.sent[id].master, s.sent[id].ms))
    && (s.pc.Announce? ==> Among(s.observed, s.pc.lap.master, s.pc.lap.ms))
    && (forall i | 0 <= i < |s.lost| :: Among(s.observed, s.lost[i].master, s.lost[i].ms))
    && (forall row | row in s.driver.laps :: IsLapTime(s, row.master, row.ms))
    && (forall m | m in s.driver.records :: IsLapTime(s, m, s.driver.records[m].ms))
  }

  ghost predicate AllCovered(s: Sys) {
    && (forall i | 0 <= i < |s.observed| :: Covered(s, s.observed[i].master, s.observed[i].ms))
    && (forall m | m in s.copies :: Covered(s, m, s.copies[m].ms))
  }

  ghost predicate Confirmed(s: Sys) {
    && (forall f | f in s.driver.outbox && f.RecordUpdated? ::
          f.master in s.driver.records && s.driver.records[f.master].ms <= f.ms)
    && (forall id, m | BreakSent(s, id, m) && id in s.driver.inbox ::
          m in s.driver.records && s.driver.records[m].ms <= s.sent[id].ms)
    && s.driver.inbox <= s.sent.Keys
  }

  /** Driver announced this record of the driver as its k-th fact. */
  predicate IsAnnouncement(outbox: seq<D.Fact>, k: nat, m: MasterId) {
    k < |outbox| && outbox[k].RecordUpdated? && outbox[k].master == m
  }

  /** The time the last write to the copy carried. */
  ghost predicate Carried(s: Sys, m: MasterId, ms: int) {
    m in s.writes &&
    match s.writes[m]
    case ByCheck(lap) => lap.master == m && lap.ms == ms && Among(s.observed, m, ms)
    case ByRefresh(k) => IsAnnouncement(s.driver.outbox, k, m) && s.driver.outbox[k].ms == ms
  }

  ghost predicate CopiesOk(s: Sys) {
    && (forall m | m in s.copies :: Carried(s, m, s.copies[m].ms))
    && (forall m | m in s.latest ::
          && IsAnnouncement(s.driver.outbox, s.latest[m], m)
          && m in s.copies && s.copies[m].ms <= s.driver.outbox[s.latest[m]].ms)
    && (forall k | k in s.refreshed :: RefreshSeen(s, k))
  }

  ghost predicate RefreshSeen(s: Sys, k: nat) {
    k < |s.driver.outbox| && s.driver.outbox[k].RecordUpdated? &&
    var m := s.driver.outbox[k].master;
    m in s.latest && (m !in s.reordered ==> k <= s.latest[m])
  }

  ghost predicate Inv(s: Sys) {
    Sound(s) && AllCovered(s) && Confirmed(s) && CopiesOk(s) && D.DbInv(s.driver)
  }

  lemma LapTimesStay(s: Sys, step: Step, master: MasterId, ms: int)
    requires Enabled(s, step)
    ensures IsLapTime(s, master, ms) ==> IsLapTime(Do(s, step), master, ms)
    ensures Among(s.observed, master, ms) ==> Among(Do(s, step).observed, master, ms)
  {
    hide Among, BelowAmong;
    if s.pc.Check? {
      AmongGrows(s.observed, s.pc.lap, master, ms);
      AmongGrows(s.skipped, s.pc.lap, master, ms);
    }
  }

  lemma CoverStays(s: Sys, step: Step, master: MasterId, ms: int)
    requires Enabled(s, step) && Covered(s, master, ms)
    ensures Covered(Do(s, step), master, ms)
  {
    hide Among, BelowAmong;
    var t := Do(s, step);
    if s.pc.Announce? {
      AmongGrows(s.lost, s.pc.lap, master, ms);
    }
    if id :| BreakSent(s, id, master) && s.sent[id].ms <= ms {
      assert BreakSent(t, id, master);
    } else if master in s.driver.records && s.driver.records[master].ms <= ms {
      if step.Deliver? { D.ProcessFrame(s.driver, D.Envelope(step.id, s.sent[step.id])); }
    } else if step.AnnounceBreak? && !BelowAmong(s.lost, master, ms) {
      assert BreakSent(t, step.id, master);
    }
  }

  lemma StepKeepsSound(s: Sys, step: Step)
    requires Enabled(s, step) && Sound(s)
    ensures Sound(Do(s, step))
  {
    hide Among;
    var t := Do(s, step);
    forall m, ms
      ensures IsLapTime(s, m, ms) ==> IsLapTime(t, m, ms)
      ensures Among(s.observed, m, ms) ==> Among(t.observed, m, ms)
    {
      LapTimesStay(s, step, m, ms);
    }
    if step.RunCheck? {
      AmongGrows(s.observed, s.pc.lap, s.pc.lap.master, s.pc.lap.ms);
    }
    if step.Deliver? {
      D.ProcessFrame(s.driver, D.Envelope(step.id, s.sent[step.id]));
    }
  }

  lemma StepKeepsCovered(s: Sys, step: Step)
    requires Enabled(s, step) && AllCovered(s) && Confirmed(s)
    ensures AllCovered(Do(s, step))
  {
    hide BelowAmong;
    var t := Do(s, step);
    forall m, ms | Covered(s, m, ms) ensures Covered(t, m, ms) {
      CoverStays(s, step, m, ms);
    }
    forall i | 0 <= i < |t.observed| ensures Covered(t, t.observed[i].master, t.observed[i].ms) {
      if i < |s.observed| {
        assert t.observed[i] == s.observed[i];
      } else if !t.pc.Announce? {
        // No break: the copy was at or below the lap, and the copy is covered.
        var lap := s.pc.lap;
        assert Covered(s, lap.master, s.copies[lap.master].ms);
        CoverWeakens(t, lap.master, s.copies[lap.master].ms, lap.ms);
      }
    }
    forall m | m in t.copies ensures Covered(t, m, t.copies[m].ms) {
      if step.Refresh? && m == s.driver.outbox[step.k].master {
        assert s.driver.outbox[step.k] in s.driver.outbox;
      } else if m in s.copies && t.copies[m] == s.copies[m] {
        assert Covered(s, m, s.copies[m].ms);
      }
    }
  }

  lemma CoverWeakens(s: Sys, master: MasterId, lo: int, hi: int)
    requires Covered(s, master, lo) && lo <= hi
    ensures Covered(s, master, hi)
  {
    if BelowAmong(s.lost, master, lo) {
      var i :| 0 <= i < |s.lost| && s.lost[i].master == master && s.lost[i].ms <= lo;
      assert s.lost[i].ms <= hi;
    }
  }

  lemma StepKeepsConfirmed(s: Sys, step: Step)
    requires Enabled(s, step) && Confirmed(s)
    ensures Confirmed(Do(s, step))
  {
    var t := Do(s, step);
    if step.Deliver? && step.commits {
      var env := D.Envelope(step.id, s.sent[step.id]);
      D.ProcessFrame(s.driver, env);
      if env.payload.RecordBroken? && env.id !in s.driver.inbox {
        D.BreakTakesMinimum(s.driver, env);
      }
    }
    forall id, m | BreakSent(t, id, m) && id in t.driver.inbox
      ensures m in t.driver.records && t.driver.records[m].ms <= t.sent[id].ms
    {
      if BreakSent(s, id, m) && id in s.driver.inbox {
        assert s.driver.records[m].ms <= s.sent[id].ms;
      }
    }
  }

  /** A longer outbox changes nothing that was carried or seen. */
  lemma CopiesFrame(s: Sys, t: Sys)
    requires CopiesOk(s) && s.driver.outbox <= t.driver.outbox
    requires t.copies == s.copies && t.writes == s.writes && t.latest == s.latest && t.observed == s.observed
    requires t.refreshed == s.refreshed && t.reordered == s.reordered
    ensures CopiesOk(t)
  {
    assert forall k | 0 <= k < |s.driver.outbox| :: t.driver.outbox[k] == s.driver.outbox[k];
    forall k | k in t.refreshed ensures RefreshSeen(t, k) {
      assert RefreshSeen(s, k);
    }
    forall m | m in t.copies ensures Carried(t, m, t.copies[m].ms) {
      assert Carried(s, m, s.copies[m].ms);
    }
  }

  lemma CheckKeepsCopies(s: Sys)
    requires Enabled(s, RunCheck) && CopiesOk(s)
    ensures CopiesOk(Do(s, RunCheck))
  {
    var t := Do(s, RunCheck);
    forall k | k in t.refreshed ensures RefreshSeen(t, k) {
      assert RefreshSeen(s, k);
    }
    forall m | m in t.copies ensures Carried(t, m, t.copies[m].ms) {
      assert m in s.copies ==> Carried(s, m, s.copies[m].ms);
      AmongGrows(s.observed, s.pc.lap, m, t.copies[m].ms);
    }
  }

  lemma RefreshKeepsCopies(s: Sys, step: Step)
    requires step.Refresh? && Enabled(s, step) && CopiesOk(s)
    ensures CopiesOk(Do(s, step))
  {
    var t := Do(s, step);
    forall k | k in t.refreshed ensures RefreshSeen(t, k) {
      assert k in s.refreshed ==> RefreshSeen(s, k);
    }
    forall m | m in t.copies ensures Carried(t, m, t.copies[m].ms) {
      assert m in s.copies ==> Carried(s, m, s.copies[m].ms);
    }
  }

  lemma StepKeepsCopies(s: Sys, step: Step)
    requires Enabled(s, step) && CopiesOk(s)
    ensures CopiesOk(Do(s, step))
  {
    hide D.Process, CopiesOk;
    if step.RunCheck? {
      CheckKeepsCopies(s);
    } else if step.Refresh? {
      RefreshKeepsCopies(s, step);
    } else {
      if step.Deliver? {
        D.OutboxGrows(s.driver, D.Envelope(step.id, s.sent[step.id]));
      }
      CopiesFrame(s, Do(s, step));
    }
  }

  lemma StepKeepsDriver(s: Sys, step: Step)
    requires Enabled(s, step) && D.DbInv(s.driver)
    ensures D.DbInv(Do(s, step).driver)
  {
    if step.Deliver? {
      D.ProcessKeeps(s.driver, D.Envelope(step.id, s.sent[step.id]));
    }
  }

  lemma {:induction false} RunKeepsInv(steps: seq<Step>, s: Sys)
    requires Exec(steps) == Some(s)
    ensures Inv(s)
  {
    hide Sound, AllCovered, Confirmed, CopiesOk, D.DbInv, Do, Enabled;
    if steps == [] {
      StartIsGood();
    } else {
      var before, step := Exec(steps[..|steps| - 1]).value, steps[|steps| - 1];
      RunKeepsInv(steps[..|steps| - 1], before);
      StepKeepsSound(before, step);
      StepKeepsCovered(before, step);
      StepKeepsConfirmed(before, step);
      StepKeepsCopies(before, step);
      StepKeepsDriver(before, step);
    }
  }

  lemma StartIsGood()
    ensures Inv(START)
  {
  }

  // ----- Convergence ----------------------------------------------------------------

  ghost predicate AllBreaksProcessed(s: Sys, master: MasterId) {
    forall id | BreakSent(s, id, master) :: id in s.driver.inbox
  }

  /** Timing is between laps and every published break of the driver is processed. */
  ghost predicate Quiet(s: Sys, master: MasterId) { s.pc.Idle? && AllBreaksProcessed(s, master) }

  /** `ms` is the minimum over all laps of this driver that Timing observed. */
  ghost predicate IsFastest(observed: seq<Lap>, master: MasterId, ms: int) {
    && (exists i | 0 <= i < |observed| :: observed[i].master == master && observed[i].ms == ms)
    && (forall i | 0 <= i < |observed| && observed[i].master == master :: ms <= observed[i].ms)
  }

  /** Driver's record is the minimum of the laps Timing observed, and absent when there is none. */
  ghost predicate Converged(s: Sys, master: MasterId) {
    && (master in s.driver.records <==> exists i | 0 <= i < |s.observed| :: s.observed[i].master == master)
    && (master in s.driver.records ==> IsFastest(s.observed, master, s.driver.records[master].ms))
  }

  /** Every announcement a crash cut off is at or above Driver's record. */
  ghost predicate LostAreCovered(s: Sys, master: MasterId) {
    forall i | 0 <= i < |s.lost| && s.lost[i].master == master ::
      master in s.driver.records && s.driver.records[master].ms <= s.lost[i].ms
  }

  /** Driver's record is a lap whose check a crash cut off, and no observed lap equals it. */
  ghost predicate SkippedStands(s: Sys, master: MasterId) {
    && master in s.driver.records
    && Among(s.skipped, master, s.driver.records[master].ms)
    && !Among(s.observed, master, s.driver.records[master].ms)
  }

  /** Main theorem: in every interleaving, with Timing crashing anywhere, whenever it is quiet
      for a driver, Driver's record is exactly the minimum of the laps Timing observed if and
      only if every announcement lost to a crash is at or above the record and the record is
      not a lap whose check was lost. */
  lemma RecordConvergesExactly(steps: seq<Step>, s: Sys, master: MasterId)
    requires Exec(steps) == Some(s) && Quiet(s, master)
    ensures Converged(s, master) <==> LostAreCovered(s, master) && !SkippedStands(s, master)
  {
    hide Exec, D.DbInv, CopiesOk;
    RunKeepsInv(steps, s);
    if Converged(s, master) {
      forall i | 0 <= i < |s.lost| && s.lost[i].master == master
        ensures master in s.driver.records && s.driver.records[master].ms <= s.lost[i].ms
      {
        assert Among(s.observed, master, s.lost[i].ms);
      }
    }
    if LostAreCovered(s, master) && !SkippedStands(s, master) {
      NothingUncovered(s, master);
    }
  }

  lemma NothingUncovered(s: Sys, master: MasterId)
    requires Sound(s) && AllCovered(s) && Confirmed(s) && Quiet(s, master)
    requires LostAreCovered(s, master) && !SkippedStands(s, master)
    ensures Converged(s, master)
  {
    forall i | 0 <= i < |s.observed| && s.observed[i].master == master
      ensures master in s.driver.records && s.driver.records[master].ms <= s.observed[i].ms
    {
      assert Covered(s, master, s.observed[i].ms);
    }
    if master in s.driver.records {
      assert IsLapTime(s, master, s.driver.records[master].ms);
    }
  }

  ghost predicate Unharmed(s: Sys, master: MasterId) {
    && (forall i | 0 <= i < |s.lost| :: s.lost[i].master != master)
    && (forall i | 0 <= i < |s.skipped| :: s.skipped[i].master != master)
  }

  /** So the record converges in every run in which no crash falls between a lap of this
      driver and its check, or between the check and its break. */
  lemma RecordConverges(steps: seq<Step>, s: Sys, master: MasterId)
    requires Exec(steps) == Some(s) && Quiet(s, master) && Unharmed(s, master)
    ensures Converged(s, master)
  {
    RecordConvergesExactly(steps, s, master);
  }

  // Every record is some lap, whole.

  /** Timing recorded this lap. */
  predicate Recorded(s: Sys, lap: Lap) {
    lap in s.observed || lap in s.skipped || (s.pc.Check? && s.pc.lap == lap)
  }

  ghost predicate FromLap(s: Sys, m: MasterId, session: D.SessionId, ms: int, at: string) {
    exists n :: Recorded(s, Lap(m, session, n, ms, at))
  }

  ghost predicate Genuine(s: Sys) {
    && (s.pc.Announce? ==> s.pc.lap in s.observed)
    && (forall id | id in s.sent :: GenuinePayload(s, s.sent[id]))
    && (forall row | row in s.driver.laps :: Recorded(s, Lap(row.master, row.session, row.number, row.ms, row.at)))
    && (forall m | m in s.driver.records ::
          FromLap(s, m, s.driver.records[m].session, s.driver.records[m].ms, s.driver.records[m].setAt))
  }

  ghost predicate GenuinePayload(s: Sys, payload: D.Payload) {
    match payload
    case LapRecorded(m, session, n, ms, at) => Recorded(s, Lap(m, session, n, ms, at))
    case RecordBroken(m, session, ms, at) => FromLap(s, m, session, ms, at)
    case _ => true
  }

  lemma RecordedStays(s: Sys, step: Step)
    requires Enabled(s, step)
    ensures forall lap | Recorded(s, lap) :: Recorded(Do(s, step), lap)
    ensures forall m, session, ms, at | FromLap(s, m, session, ms, at) :: FromLap(Do(s, step), m, session, ms, at)
  {
    hide D.Process, Observed, Refreshed;
    var t := Do(s, step);
    forall m, session, ms, at | FromLap(s, m, session, ms, at) ensures FromLap(t, m, session, ms, at) {
      var n :| Recorded(s, Lap(m, session, n, ms, at));
      assert Recorded(t, Lap(m, session, n, ms, at));
    }
  }

  lemma StepKeepsGenuine(s: Sys, step: Step)
    requires Enabled(s, step) && Genuine(s)
    ensures Genuine(Do(s, step))
  {
    hide D.Process, Observed, Refreshed, CheckPR, Recorded, FromLap;
    var t := Do(s, step);
    RecordedStays(s, step);
    if step.Deliver? && step.commits {
      DeliveryIsGenuine(s, step);
    } else if step.AnnounceBreak? {
      AnnouncedIsGenuine(s, s.pc.lap);
      assert FromLap(t, s.pc.lap.master, s.pc.lap.session, s.pc.lap.ms, s.pc.lap.at);
    } else {
      NowRecorded(s, step);
    }
  }

  lemma NowRecorded(s: Sys, step: Step)
    requires Enabled(s, step)
    ensures step.RecordLap? ==> Recorded(Do(s, step), step.lap)
  {
  }

  lemma AnnouncedIsGenuine(s: Sys, lap: Lap)
    requires lap in s.observed
    ensures FromLap(s, lap.master, lap.session, lap.ms, lap.at)
  {
    assert Recorded(s, Lap(lap.master, lap.session, lap.number, lap.ms, lap.at));
  }

  lemma DeliveryIsGenuine(s: Sys, step: Step)
    requires Enabled(s, step) && Genuine(s) && step.Deliver? && step.commits
    ensures Genuine(Do(s, step))
  {
    hide D.Process, Observed, Refreshed, CheckPR, FromLap;
    var t, env := Do(s, step), D.Envelope(step.id, s.sent[step.id]);
    RecordedStays(s, step);
    D.ProcessSource(s.driver, env);
    assert GenuinePayload(s, env.payload);
    forall m | m in t.driver.records
      ensures FromLap(t, m, t.driver.records[m].session, t.driver.records[m].ms, t.driver.records[m].setAt)
    {
      var record := t.driver.records[m];
      if row :| row in s.driver.laps && row.master == m && record == D.Record(row.ms, row.session, row.at) {
        RowIsGenuine(t, row);
      }
    }
  }

  lemma RowIsGenuine(s: Sys, row: D.LapRow)
    requires Recorded(s, Lap(row.master, row.session, row.number, row.ms, row.at))
    ensures FromLap(s, row.master, row.session, row.ms, row.at)
  {
  }

  /** Main theorem: in every run each stored lap is a lap Timing recorded, and each record has
      the session, the time and the instant of one and the same recorded lap of its driver. */
  lemma {:induction false} RecordsAreGenuine(steps: seq<Step>, s: Sys)
    requires Exec(steps) == Some(s)
    ensures Genuine(s)
  {
    hide Genuine, Do, Enabled;
    if steps == [] {
      StartIsGenuine();
    } else {
      var front := steps[..|steps| - 1];
      RecordsAreGenuine(front, Exec(front).value);
      StepKeepsGenuine(Exec(front).value, steps[|steps| - 1]);
    }
  }

  lemma StartIsGenuine()
    ensures Genuine(START)
  {
  }

  /** At every moment, mid-check or with breaks in flight, Driver's record is some lap
      Timing recorded for that driver: it is never invented and never another's. */
  lemma RecordIsNeverInvented(steps: seq<Step>, s: Sys, master: MasterId)
    requires Exec(steps) == Some(s) && master in s.driver.records
    ensures IsLapTime(s, master, s.driver.records[master].ms)
  {
    RunKeepsInv(steps, s);
  }

  // ----- The two ways a crash can break it -----------------------------------------------

  lemma ExecExtends(steps: seq<Step>, s: Sys, step: Step)
    requires Exec(steps) == Some(s) && Enabled(s, step)
    ensures Exec(steps + [step]) == Some(Do(s, step))
  {
    assert (steps + [step])[..|steps|] == steps;
  }

  /** Any first lap, checked, with Timing dying before its break is enqueued: the lap was
      observed, and nothing will ever tell Driver. */
  lemma CrashBeforeTheBreak(id: EventId, lap: Lap) returns (steps: seq<Step>, s: Sys)
    ensures steps == [RecordLap(id, lap), RunCheck, Crash]
    ensures Exec(steps) == Some(s) && Quiet(s, lap.master)
    ensures s.observed == [lap] && lap.master !in s.driver.records && !Converged(s, lap.master)
    ensures forall x :: !BreakSent(s, x, lap.master)
  {
    hide Exec;
    steps, s := Begin();
    steps, s := Then(steps, s, RecordLap(id, lap));
    steps, s := Then(steps, s, RunCheck);
    steps, s := Then(steps, s, Crash);
    assert s.observed[0] == lap;
  }

  lemma Begin() returns (steps: seq<Step>, s: Sys)
    ensures steps == [] && s == START && Exec(steps) == Some(s)
  {
    steps, s := [], START;
  }

  lemma Then(steps: seq<Step>, s: Sys, step: Step) returns (steps': seq<Step>, s': Sys)
    requires Exec(steps) == Some(s) && Enabled(s, step)
    ensures steps' == steps + [step] && s' == Do(s, step) && Exec(steps') == Some(s')
  {
    ExecExtends(steps, s, step);
    steps', s' := steps + [step], Do(s, step);
  }

  /** Two laps of one driver, the faster one recorded but never checked: Driver's history
      makes it the record, though Timing never observed it. */
  lemma CrashBeforeTheCheck(x: EventId, y: EventId, z: EventId, a: Lap, b: Lap) returns (steps: seq<Step>, s: Sys)
    requires x != y && y != z && x != z && a.master == b.master && a.ms < b.ms
    ensures Exec(steps) == Some(s) && Quiet(s, a.master) && s.observed == [b]
    ensures a.master in s.driver.records && s.driver.records[a.master].ms == a.ms && !Converged(s, a.master)
  {
    hide Exec, D.Process;
    steps, s := Begin();
    steps, s := Then(steps, s, RecordLap(x, a));
    steps, s := Then(steps, s, Crash);
    steps, s := Then(steps, s, RecordLap(y, b));
    steps, s := Then(steps, s, RunCheck);
    steps, s := Then(steps, s, AnnounceBreak(z));
    var lap, broken := D.Envelope(x, s.sent[x]), D.Envelope(z, s.sent[z]);
    steps, s := Then(steps, s, Deliver(x, true));
    FirstLapStored(lap);
    steps, s := Then(steps, s, Deliver(z, true));
    var db := D.Process(D.EMPTY, lap);
    D.BreakTakesMinimum(db, broken);
    D.ProcessFrame(db, broken);
    assert db.laps[0].master == a.master;
    assert s.observed == [b];
    assert forall i | 0 <= i < |s.observed| :: s.observed[i].ms != a.ms;
  }

  lemma FirstLapStored(env: D.Envelope)
    requires env.payload.LapRecorded?
    ensures var p := env.payload;
      D.Process(D.EMPTY, env).laps == [D.LapRow(p.master, p.session, p.number, p.ms, p.at, env.id)]
    ensures D.Process(D.EMPTY, env).records == map[] && D.Process(D.EMPTY, env).inbox == {env.id}
  {
  }

  // ----- Timing's copy and Driver's record --------------------------------------------------

  /** Where an announcement stands among the driver's announced values. */
  lemma {:induction false} AnnouncedAt(outbox: seq<D.Fact>, m: MasterId, k: nat) returns (i: nat)
    requires IsAnnouncement(outbox, k, m)
    ensures var values := D.RecordFacts(outbox, m);
      i < |values| && values[i] == outbox[k].ms
      && (i == |values| - 1 <==> forall j | k < j < |outbox| :: !IsAnnouncement(outbox, j, m))
  {
    var n := |outbox| - 1;
    var front := outbox[..n];
    if k == n {
      i := |D.RecordFacts(front, m)|;
    } else {
      i := AnnouncedAt(front, m, k);
      assert forall j | 0 <= j < n :: IsAnnouncement(outbox, j, m) <==> IsAnnouncement(front, j, m);
      if !IsAnnouncement(outbox, n, m) {
        assert D.RecordFacts(outbox, m) == D.RecordFacts(front, m);
      }
    }
  }

  /** No later announcement for the driver. */
  ghost predicate IsLatest(outbox: seq<D.Fact>, k: nat, m: MasterId) {
    IsAnnouncement(outbox, k, m) && forall j | k < j < |outbox| :: !IsAnnouncement(outbox, j, m)
  }

  /** An announcement carries the stored record exactly when it is the driver's latest. */
  lemma LatestIsTheRecord(db: D.Db, m: MasterId, k: nat)
    requires D.DbInv(db) && IsAnnouncement(db.outbox, k, m)
    ensures m in db.records && (db.outbox[k].ms == db.records[m].ms <==> IsLatest(db.outbox, k, m))
  {
    hide D.RecordFacts;
    var i := AnnouncedAt(db.outbox, m, k);
    var values := D.RecordFacts(db.outbox, m);
    assert D.RecordsAnnounced(db);
    assert D.Decreasing(values);
    if i < |values| - 1 {
      assert values[|values| - 1] < values[i];
    }
  }

  /** When all is quiet the copy is never below the record. If a refresh wrote it last, it
      equals the record exactly when that was the driver's latest announcement. If a lap's own
      check wrote it last, it does exactly when the lap is the fastest Timing observed for the
      driver and the record is not a lap whose check was lost. */
  lemma CopyEqualsRecordExactly(steps: seq<Step>, s: Sys, m: MasterId)
    requires Exec(steps) == Some(s) && Quiet(s, m) && LostAreCovered(s, m) && m in s.copies
    ensures m in s.driver.records && s.driver.records[m].ms <= s.copies[m].ms && m in s.writes
    ensures s.copies[m].ms == s.driver.records[m].ms <==>
      match s.writes[m]
      case ByCheck(lap) => IsFastest(s.observed, m, lap.ms) && !SkippedStands(s, m)
      case ByRefresh(k) => IsLatest(s.driver.outbox, k, m)
  {
    hide Sound, D.DbInv, Exec;
    RunKeepsInv(steps, s);
    RecordConvergesExactly(steps, s, m);
    assert Covered(s, m, s.copies[m].ms);
    assert Carried(s, m, s.copies[m].ms);
    if s.writes[m].ByRefresh? {
      LatestIsTheRecord(s.driver, m, s.writes[m].k);
    }
  }

  /** In a run that converges, Timing can tell from its own laps and the announcements. */
  lemma CopyCheckedByTiming(steps: seq<Step>, s: Sys, m: MasterId)
    requires Exec(steps) == Some(s) && Quiet(s, m) && Unharmed(s, m) && m in s.copies
    ensures m in s.driver.records && m in s.writes
    ensures s.copies[m].ms == s.driver.records[m].ms <==>
      match s.writes[m]
      case ByCheck(lap) => IsFastest(s.observed, m, lap.ms)
      case ByRefresh(k) => IsLatest(s.driver.outbox, k, m)
  {
    CopyEqualsRecordExactly(steps, s, m);
  }

  /** So with refreshes in order, once the latest announcement has reached Timing, its copy is
      Driver's record. */
  lemma InOrderRefreshesAgree(steps: seq<Step>, s: Sys, m: MasterId, k: nat)
    requires Exec(steps) == Some(s) && Quiet(s, m) && LostAreCovered(s, m)
    requires m !in s.reordered && k in s.refreshed && IsLatest(s.driver.outbox, k, m)
    ensures m in s.copies && m in s.driver.records && s.copies[m].ms == s.driver.records[m].ms
  {
    hide Sound, D.DbInv;
    RunKeepsInv(steps, s);
    assert RefreshSeen(s, k);
    assert s.latest[m] == k;
    LatestIsTheRecord(s.driver, m, k);
    CopyEqualsRecordExactly(steps, s, m);
  }

  /** Out of order it fails: two records of a driver, refreshed newest first, leave the older
      one in the copy for good. */
  lemma ReorderedRefreshesDisagree(w: EventId, x: EventId, y: EventId, z: EventId, a: Lap, b: Lap)
    returns (steps: seq<Step>, s: Sys)
    requires w != x && w != y && w != z && x != y && x != z && y != z
    requires a.master == b.master && b.ms < a.ms
    ensures Exec(steps) == Some(s) && Quiet(s, a.master) && Unharmed(s, a.master)
    ensures a.master in s.copies && a.master in s.driver.records
    ensures s.driver.records[a.master].ms == b.ms && s.copies[a.master].ms == a.ms
  {
    hide Exec, D.Process;
    steps, s := Begin();
    steps, s := Then(steps, s, RecordLap(w, a));
    steps, s := Then(steps, s, RunCheck);
    steps, s := Then(steps, s, AnnounceBreak(x));
    FirstBreak(x, a);
    steps, s := Then(steps, s, Deliver(x, true));
    steps, s := Then(steps, s, RecordLap(y, b));
    steps, s := Then(steps, s, RunCheck);
    steps, s := Then(steps, s, AnnounceBreak(z));
    SecondBreak(x, a, z, b);
    steps, s := Then(steps, s, Deliver(z, true));
    steps, s := Then(steps, s, Refresh(2, b.at));
    steps, s := Then(steps, s, Refresh(1, b.at));
  }

  /** A driver's first break, as Driver confirms it. */
  function Confirmation(id: EventId, lap: Lap): D.Db {
    D.Process(D.EMPTY, D.Envelope(id, D.RecordBroken(lap.master, lap.session, lap.ms, lap.at)))
  }

  lemma FirstBreak(id: EventId, a: Lap)
    ensures var db := Confirmation(id, a);
      && db.outbox == [D.ProfileUpdated(a.master, id), D.RecordUpdated(a.master, a.ms, a.at, id)]
      && db.laps == [] && a.master in db.records && db.records[a.master].ms == a.ms
      && forall e :: e in db.inbox <==> e == id
  {
  }

  lemma SecondBreak(x: EventId, a: Lap, y: EventId, b: Lap)
    requires x != y && a.master == b.master && b.ms < a.ms
    ensures var db := D.Process(Confirmation(x, a), D.Envelope(y, D.RecordBroken(b.master, b.session, b.ms, b.at)));
      && |db.outbox| == 3 && db.outbox[1].RecordUpdated? && db.outbox[1].ms == a.ms && db.outbox[1].master == a.master
      && db.outbox[2].RecordUpdated? && db.outbox[2].ms == b.ms && db.outbox[2].master == a.master
      && a.master in db.records && db.records[a.master].ms == b.ms
      && forall e :: e in db.inbox <==> e == x || e == y
  {
    FirstBreak(x, a);
  }
}
