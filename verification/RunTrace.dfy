/** The simulator's run: sessions emitted one after another through the outbox, live
    record detection after each lap, and the out-of-session reconcile in the gap. */
module RunTrace {
  import opened Base
  import opened Capture
  import Laps
  import PR = PersonalRecord

  // ----- The grammar of a well-bracketed trace ---------------------------------------------

  datatype Phase = Outside | Inside(session: SessionId, down: bool, lastLap: Option<Event>)

  /** One event of a well-bracketed trace; None when the event is out of place. */
  function Advance(p: Phase, e: Event): Option<Phase> {
    match e
    case SessionStarted(s, _) => if p.Outside? then Some(Inside(s, false, None)) else None
    case CheckedIn(_, _, _) => if p.Inside? then Some(p.(lastLap := None)) else None
    case LapRecorded(_, s, _, _, _) =>
      if p.Inside? && p.session == s && !p.down then Some(p.(lastLap := Some(e))) else None
    case RecordBroken(m, s, ms, _, at) =>
      if p.Inside? && p.lastLap.Some? && p.lastLap.value.LapRecorded?
         && p.lastLap.value.master == m && p.lastLap.value.session == s && p.lastLap.value.ms == ms
         && p.lastLap.value.at == at
      then Some(p.(lastLap := None)) else None
    case ScannerOffline(_, _) => if p.Inside? && !p.down then Some(p.(down := true, lastLap := None)) else None
    case ScannerOnline(_) => if p.Inside? && p.down then Some(p.(down := false, lastLap := None)) else None
    case SessionEnded(s, _, _) => if p.Inside? && p.session == s && !p.down then Some(Outside) else None
  }

  function Track(p: Phase, events: seq<Event>): Option<Phase> {
    if events == [] then Some(p) else
    var q := Track(p, events[..|events| - 1]);
    if q.None? then None else Advance(q.value, events[|events| - 1])
  }

  lemma {:induction false} TrackJoin(p: Phase, xs: seq<Event>, ys: seq<Event>)
    ensures Track(p, xs + ys) == if Track(p, xs).None? then None else Track(Track(p, xs).value, ys)
  {
    if ys == [] {
      assert xs + ys == xs;
    } else {
      assert (xs + ys)[..|xs + ys| - 1] == xs + ys[..|ys| - 1];
      TrackJoin(p, xs, ys[..|ys| - 1]);
    }
  }

  lemma TrackOne(p: Phase, e: Event)
    ensures Track(p, [e]) == Advance(p, e)
  {
    assert [e][..0] == [];
  }

  lemma TrackNone(p: Phase)
    ensures Track(p, []) == Some(p)
  {
  }

  lemma TrackAppend(p: Phase, events: seq<Event>, e: Event)
    ensures Track(p, events + [e]) == if Track(p, events).None? then None else Advance(Track(p, events).value, e)
  {
    assert (events + [e])[..|events|] == events;
  }

  // What acceptance means, in plain terms.

  ghost predicate Accepted(trace: seq<Event>) { Track(Outside, trace).Some? }

  lemma {:induction false} PrefixAccepted(trace: seq<Event>, n: nat)
    requires Accepted(trace) && n <= |trace|
    ensures Accepted(trace[..n])
  {
    assert trace == trace[..n] + trace[n..];
    TrackJoin(Outside, trace[..n], trace[n..]);
  }

  /** The phase remembers the last event exactly when it was a lap. */
  lemma LastLapIsLastEvent(trace: seq<Event>, p: Phase)
    requires Track(Outside, trace) == Some(p) && p.Inside? && p.lastLap.Some?
    ensures trace != [] && trace[|trace| - 1] == p.lastLap.value
  {
  }

  /** Each break directly follows the lap that caused it: same driver, session, lap time and instant. */
  lemma BreakFollowsItsLap(trace: seq<Event>, i: nat)
    requires Accepted(trace) && i < |trace| && trace[i].RecordBroken?
    ensures i > 0 && trace[i - 1].LapRecorded?
    ensures trace[i - 1].master == trace[i].master && trace[i - 1].session == trace[i].session
    ensures trace[i - 1].ms == trace[i].ms && trace[i - 1].at == trace[i].at
  {
    PrefixAccepted(trace, i + 1);
    var upto := trace[..i + 1];
    assert upto[..i] == trace[..i] && upto[i] == trace[i];
    LastLapIsLastEvent(trace[..i], Track(Outside, trace[..i]).value);
  }

  lemma {:induction false} InsideSinceStart(trace: seq<Event>, p: Phase) returns (j: nat)
    requires Track(Outside, trace) == Some(p) && p.Inside?
    ensures j < |trace| && trace[j].SessionStarted? && trace[j].session == p.session
    ensures forall k | j < k < |trace| :: !trace[k].SessionStarted? && !trace[k].SessionEnded?
  {
    var front, e := trace[..|trace| - 1], trace[|trace| - 1];
    if e.SessionStarted? {
      j := |trace| - 1;
    } else {
      j := InsideSinceStart(front, Track(Outside, front).value);
      assert front[j] == trace[j];
      forall k | j < k < |trace| ensures !trace[k].SessionStarted? && !trace[k].SessionEnded? {
        if k < |front| { assert trace[k] == front[k]; }
      }
    }
  }

  /** Each lap lies inside its own session: the nearest session event before it is that
      session's start. */
  lemma LapLiesInItsSession(trace: seq<Event>, i: nat) returns (j: nat)
    requires Accepted(trace) && i < |trace| && trace[i].LapRecorded?
    ensures j < i && trace[j].SessionStarted? && trace[j].session == trace[i].session
    ensures forall k | j < k < i :: !trace[k].SessionStarted? && !trace[k].SessionEnded?
  {
    PrefixAccepted(trace, i + 1);
    var upto := trace[..i + 1];
    assert upto[..i] == trace[..i] && upto[i] == trace[i];
    j := InsideSinceStart(trace[..i], Track(Outside, trace[..i]).value);
    assert trace[..i][j] == trace[j];
    forall k | j < k < i ensures !trace[k].SessionStarted? && !trace[k].SessionEnded? {
      assert trace[..i][k] == trace[k];
    }
  }

  /** While a session is open nothing but its own end can close it. */
  lemma {:induction false} InsideUntilEnd(p: Phase, events: seq<Event>)
    requires p.Inside? && Track(p, events).Some?
    requires forall k | 0 <= k < |events| :: !events[k].SessionStarted? && !events[k].SessionEnded?
    ensures Track(p, events).value.Inside? && Track(p, events).value.session == p.session
  {
    if events != [] {
      InsideUntilEnd(p, events[..|events| - 1]);
    }
  }

  /** The next session event after a lap is the end of the lap's own session. */
  lemma LapIsClosedByItsEnd(trace: seq<Event>, i: nat, k: nat)
    requires Accepted(trace) && i < k < |trace| && trace[i].LapRecorded?
    requires trace[k].SessionStarted? || trace[k].SessionEnded?
    requires forall j | i < j < k :: !trace[j].SessionStarted? && !trace[j].SessionEnded?
    ensures trace[k].SessionEnded? && trace[k].session == trace[i].session
  {
    hide Track;
    PrefixAccepted(trace, i + 1);
    PrefixAccepted(trace, k + 1);
    var upto, mid := trace[..i], trace[i + 1..k];
    assert trace[..i + 1] == upto + [trace[i]];
    assert trace[..k + 1] == (trace[..i + 1] + mid) + [trace[k]];
    TrackAppend(Outside, upto, trace[i]);
    TrackAppend(Outside, trace[..i + 1] + mid, trace[k]);
    TrackJoin(Outside, trace[..i + 1], mid);
    InsideUntilEnd(Track(Outside, trace[..i + 1]).value, mid);
  }

  lemma NextSessionEvent(trace: seq<Event>, i: nat, n: nat) returns (k: nat)
    requires i < n <= |trace|
    ensures i < k <= n
    ensures forall j | i < j < k :: !trace[j].SessionStarted? && !trace[j].SessionEnded?
    ensures k < n ==> trace[k].SessionStarted? || trace[k].SessionEnded?
  {
    k := i + 1;
    while k < n && !trace[k].SessionStarted? && !trace[k].SessionEnded?
      invariant i < k <= n
      invariant forall j | i < j < k :: !trace[j].SessionStarted? && !trace[j].SessionEnded?
    {
      k := k + 1;
    }
  }

  /** In a trace that ends outside every session, each lap's session is ended after it, with
      no other session event between: with LapLiesInItsSession, each lap lies between its own
      session's start and end. */
  lemma LapHasItsEnd(trace: seq<Event>, i: nat) returns (k: nat)
    requires Track(Outside, trace) == Some(Outside) && i < |trace| && trace[i].LapRecorded?
    ensures i < k < |trace| && trace[k].SessionEnded? && trace[k].session == trace[i].session
    ensures forall j | i < j < k :: !trace[j].SessionStarted? && !trace[j].SessionEnded?
  {
    hide Track;
    k := NextSessionEvent(trace, i, |trace|);
    if k < |trace| {
      LapIsClosedByItsEnd(trace, i, k);
    } else {
      PrefixAccepted(trace, i + 1);
      var upto, rest := trace[..i], trace[i + 1..];
      assert trace[..i + 1] == upto + [trace[i]];
      TrackAppend(Outside, upto, trace[i]);
      assert trace == trace[..i + 1] + rest;
      TrackJoin(Outside, trace[..i + 1], rest);
      InsideUntilEnd(Track(Outside, trace[..i + 1]).value, rest);
    }
  }

  lemma {:induction false} OutsideSinceEnd(trace: seq<Event>)
    requires Track(Outside, trace) == Some(Outside)
    ensures trace == [] || trace[|trace| - 1].SessionEnded?
  {
  }

  /** Sessions never overlap: a start is the first event or directly follows an end. */
  lemma SessionsNeverOverlap(trace: seq<Event>, i: nat)
    requires Accepted(trace) && i < |trace| && trace[i].SessionStarted?
    ensures i == 0 || trace[i - 1].SessionEnded?
  {
    PrefixAccepted(trace, i + 1);
    var upto := trace[..i + 1];
    assert upto[..i] == trace[..i] && upto[i] == trace[i];
    OutsideSinceEnd(trace[..i]);
  }

  // ----- A generated session is well bracketed -----------------------------------------------

  lemma {:induction false} CheckInsKeepPhase(p: Phase, drivers: seq<Driver>, base: int)
    requires p.Inside?
    ensures Track(p, CheckIns(drivers, base)).Some?
      && Track(p, CheckIns(drivers, base)).value.(lastLap := None) == p.(lastLap := None)
    ensures Track(p, CheckIns(drivers, base)).value.Inside?
  {
    var es := CheckIns(drivers, base);
    if drivers != [] {
      CheckInsKeepPhase(p, drivers[..|drivers| - 1], base);
      assert es[..|es| - 1] == CheckIns(drivers[..|drivers| - 1], base);
    }
  }

  predicate DownAfter(r: Race, n: nat) { r.Outage().active && r.Outage().first < n <= r.Outage().past }

  lemma {:induction false} WalkIsBracketed(r: Race, p: Phase, n: nat)
    requires n <= |r.cs| && p.Inside? && p.session == r.session && !p.down
    ensures var q := Track(p, EventsTo(r, n));
      q.Some? && q.value.Inside? && q.value.session == r.session && q.value.down == DownAfter(r, n)
  {
    hide Track, EventsAt, OutageWindow;
    WindowLeavesBothSides(|r.cs|, r.cfg.outageLaps);
    if n == 0 {
      TrackNone(p);
    } else {
      WalkIsBracketed(r, p, n - 1);
      TrackJoin(p, EventsTo(r, n - 1), EventsAt(r, n - 1));
      StretchIsBracketed(r, Track(p, EventsTo(r, n - 1)).value, n - 1);
    }
  }

  lemma StretchIsBracketed(r: Race, p: Phase, i: nat)
    requires i < |r.cs| && p.Inside? && p.session == r.session && p.down == DownAfter(r, i)
    ensures var q := Track(p, EventsAt(r, i));
      q.Some? && q.value.Inside? && q.value.session == r.session && q.value.down == DownAfter(r, i + 1)
  {
    hide Track, FateAt, IsLap, OutageWindow;
    WindowLeavesBothSides(|r.cs|, r.cfg.outageLaps);
    var w := r.Outage();
    TrackNone(p);
    if Missed(w, i) {
      TrackOne(p, ScannerOffline(r.cs[w.first - 1].at, r.cs[w.first].at));
    } else {
      var back := if w.active && i == w.past then [ScannerOnline(r.cs[i].at)] else [];
      var lap := if IsLap(r, i) then [LapEvent(r, i)] else [];
      TrackJoin(p, back, lap);
      TrackOne(p, ScannerOnline(r.cs[i].at));
      var q := if back == [] then p else p.(down := false, lastLap := None);
      TrackNone(q);
      if IsLap(r, i) {
        TrackOne(q, LapEvent(r, i));
      }
    }
  }

  lemma SessionIsBracketed(r: Race, drivers: seq<Driver>)
    ensures Track(Outside, Session(r, drivers)) == Some(Outside)
  {
    WindowLeavesBothSides(|r.cs|, r.cfg.outageLaps);
    var start, checkIns, walk := [SessionStarted(r.session, r.base)], CheckIns(drivers, r.base), EventsTo(r, |r.cs|);
    var end := SessionEnded(r.session, LastAt(r, |r.cs|), SummaryRows(drivers, TallyTo(r, |r.cs|)));
    TrackOne(Outside, start[0]);
    var p := Inside(r.session, false, None);
    TrackJoin(Outside, start, checkIns);
    CheckInsKeepPhase(p, drivers, r.base);
    TrackJoin(Outside, start + checkIns, walk);
    var q := Track(p, checkIns).value;
    WalkIsBracketed(r, q, |r.cs|);
    TrackJoin(Outside, start + checkIns + walk, [end]);
    TrackOne(Track(q, walk).value, end);
  }

  // ----- The reconciled session ------------------------------------------------------------------

  /** Instants of the crossings: the first at `base`, each next one a drawn lap later. */
  function At(base: int, draws: seq<int>, i: nat): int
    requires i <= |draws|
  {
    if i == 0 then base else At(base, draws, i - 1) + draws[i - 1]
  }

  function Ops(base: int, draws: seq<int>, n: nat): (ops: seq<Laps.Op>)
    requires n <= |draws|
    ensures |ops| == n
  {
    if n == 0 then [] else Ops(base, draws, n - 1) + [Laps.CrossAt(At(base, draws, n - 1))]
  }

  function ReconciledLaps(min: int, session: SessionId, master: Token, base: int, draws: seq<int>, n: nat): seq<Event>
    requires n <= |draws|
  {
    if n == 0 then [] else
    var laps := ReconciledLaps(min, session, master, base, draws, n - 1);
    var ops := Ops(base, draws, n);
    var o := Laps.OutcomeOfLast(min, Laps.FRESH, ops).value;
    if o.Counted? then laps + [LapRecorded(master, session, o.number, o.ms, At(base, draws, n - 1))] else laps
  }

  lemma OpsUnfold(min: int, base: int, draws: seq<int>, n: nat)
    requires n < |draws|
    ensures var tr := Laps.After(min, Laps.FRESH, Ops(base, draws, n));
      var (tr1, o) := Laps.Crossed(min, tr, At(base, draws, n));
      && Laps.After(min, Laps.FRESH, Ops(base, draws, n + 1)) == tr1
      && Laps.OutcomeOfLast(min, Laps.FRESH, Ops(base, draws, n + 1)) == Some(o)
      && Laps.Counts(min, Laps.FRESH, Ops(base, draws, n + 1)) ==
           Laps.Counts(min, Laps.FRESH, Ops(base, draws, n)) + if o.Counted? then [o] else []
    ensures At(base, draws, n + 1) == At(base, draws, n) + draws[n]
  {
    assert Ops(base, draws, n + 1)[..n] == Ops(base, draws, n);
  }

  lemma ReconciledUnfold(min: int, session: SessionId, master: Token, base: int, draws: seq<int>, n: nat)
    requires n < |draws|
    ensures var o := Laps.OutcomeOfLast(min, Laps.FRESH, Ops(base, draws, n + 1)).value;
      ReconciledLaps(min, session, master, base, draws, n + 1) == ReconciledLaps(min, session, master, base, draws, n)
        + if o.Counted? then [LapRecorded(master, session, o.number, o.ms, At(base, draws, n))] else []
  {
    hide Ops, Laps.OutcomeOfLast, At;
  }

  lemma NothingReconciled(min: int, session: SessionId, master: Token, base: int, draws: seq<int>)
    ensures Laps.After(min, Laps.FRESH, Ops(base, draws, 0)) == Laps.FRESH
      && Laps.Counts(min, Laps.FRESH, Ops(base, draws, 0)) == []
    ensures ReconciledLaps(min, session, master, base, draws, 0) == [] && At(base, draws, 0) == base
  {
  }

  function MsOf(e: Event): int { if e.LapRecorded? then e.ms else 0 }

  function BestMs(laps: seq<Event>): int {
    if |laps| <= 1 then (if laps == [] then 0 else MsOf(laps[0])) else
    var best, ms := BestMs(laps[..|laps| - 1]), MsOf(laps[|laps| - 1]);
    if ms < best then ms else best
  }

  function LastLapAt(laps: seq<Event>, base: int): int {
    if laps != [] && laps[|laps| - 1].LapRecorded? then laps[|laps| - 1].at else base
  }

  /** One complete out-of-session session, or nothing when no crossing counts. `draws`
      holds one lap time per crossing. */
  function Reconciled(min: int, outOfSessionLaps: int, drivers: seq<Driver>, session: SessionId, base: int,
                      draws: seq<int>): seq<Event> {
    if outOfSessionLaps <= 0 || drivers == [] then [] else
    var master := drivers[0].master;
    var laps := ReconciledLaps(min, session, master, base, draws, |draws|);
    if laps == [] then [] else
    [SessionStarted(session, base)] + laps
    + [SessionEnded(session, LastLapAt(laps, base), [SummaryRow(master, BestMs(laps), |laps|)])]
  }

  /** The reconciled laps are exactly what the tracker counts, in order. */
  lemma {:induction false} ReconciledLapsAreTheCounts(min: int, session: SessionId, master: Token, base: int,
                                                      draws: seq<int>, n: nat)
    requires n <= |draws|
    ensures var laps, counts := ReconciledLaps(min, session, master, base, draws, n),
      Laps.Counts(min, Laps.FRESH, Ops(base, draws, n));
      |laps| == |counts| && forall i | 0 <= i < |laps| ::
        && laps[i].LapRecorded? && laps[i].session == session && laps[i].master == master
        && counts[i] == Laps.Counted(laps[i].number, laps[i].ms) && laps[i].number == i + 1
  {
    hide Ops, At, Laps.After, Laps.Counts, Laps.OutcomeOfLast;
    Laps.LapsAreNumberedAndFiltered(min, Laps.FRESH, Ops(base, draws, n));
    if n == 0 {
      NothingReconciled(min, session, master, base, draws);
    } else {
      ReconciledLapsAreTheCounts(min, session, master, base, draws, n - 1);
      OpsUnfold(min, base, draws, n - 1);
    }
  }

  /** The one-row summary of a reconciled session is the count and minimum of its laps. */
  lemma {:induction false} BestIsLeast(laps: seq<Event>)
    requires laps != [] && forall i | 0 <= i < |laps| :: laps[i].LapRecorded?
    ensures exists i :: 0 <= i < |laps| && laps[i].ms == BestMs(laps)
    ensures forall i | 0 <= i < |laps| :: BestMs(laps) <= laps[i].ms
  {
    if |laps| > 1 {
      var front := laps[..|laps| - 1];
      BestIsLeast(front);
      var i :| 0 <= i < |front| && front[i].ms == BestMs(front);
      assert laps[i] == front[i];
      forall k | 0 <= k < |front| ensures BestMs(front) <= laps[k].ms {
        assert laps[k] == front[k];
      }
      assert laps[|front|].ms == BestMs(laps) || laps[i].ms == BestMs(laps);
    } else {
      assert laps[0].ms == BestMs(laps);
    }
  }

  /** Its laps join up: their times add up to the instant of the last one minus the base. */
  lemma {:induction false} ReconciledTelescopes(min: int, session: SessionId, master: Token, base: int,
                                                draws: seq<int>, n: nat)
    requires 0 < n <= |draws|
    ensures var laps := ReconciledLaps(min, session, master, base, draws, n);
      && Laps.After(min, Laps.FRESH, Ops(base, draws, n)).prev == Some(LastLapAt(laps, base))
      && Laps.Total(Laps.Counts(min, Laps.FRESH, Ops(base, draws, n))) == LastLapAt(laps, base) - base
  {
    hide Ops, ReconciledLaps, At, Laps.After, Laps.Counts, Laps.OutcomeOfLast;
    OpsUnfold(min, base, draws, n - 1);
    ReconciledUnfold(min, session, master, base, draws, n - 1);
    NothingReconciled(min, session, master, base, draws);
    var counts := Laps.Counts(min, Laps.FRESH, Ops(base, draws, n - 1));
    var o := Laps.OutcomeOfLast(min, Laps.FRESH, Ops(base, draws, n)).value;
    if n > 1 {
      ReconciledTelescopes(min, session, master, base, draws, n - 1);
    }
    if o.Counted? {
      assert (counts + [o])[..|counts|] == counts;
    } else {
      assert counts + [] == counts;
    }
  }

  /** The reconciled session whole: the first driver's laps, whose times add up to the span from
      its start to its end, and a summary of exactly those laps; nothing when none counts. */
  lemma ReconciledShape(min: int, outOfSessionLaps: int, drivers: seq<Driver>, session: SessionId, base: int,
                        draws: seq<int>)
    ensures var recon := Reconciled(min, outOfSessionLaps, drivers, session, base, draws);
      var counts := Laps.Counts(min, Laps.FRESH, Ops(base, draws, |draws|));
      && (recon == [] <==> outOfSessionLaps <= 0 || drivers == [] || counts == [])
      && (recon != [] ==>
            var n := |recon| - 1;
            && n == |counts| + 1 && recon[0] == SessionStarted(session, base)
            && (forall i | 0 < i < n :: recon[i].LapRecorded? && recon[i].master == drivers[0].master)
            && recon[n].SessionEnded? && recon[n].session == session
            && recon[n].at == recon[n - 1].at == base + Laps.Total(counts)
            && |recon[n].summary| == 1
            && var row := recon[n].summary[0];
               && row.master == drivers[0].master && row.count == |counts|
               && (exists i :: 0 < i < n && recon[i].ms == row.best)
               && (forall i | 0 < i < n :: row.best <= recon[i].ms))
  {
    hide Ops, ReconciledLaps, BestMs, Laps.Counts, Laps.Total;
    if outOfSessionLaps > 0 && drivers != [] {
      var master := drivers[0].master;
      var laps := ReconciledLaps(min, session, master, base, draws, |draws|);
      ReconciledLapsAreTheCounts(min, session, master, base, draws, |draws|);
      if laps != [] {
        NothingReconciled(min, session, master, base, draws);
        ReconciledTelescopes(min, session, master, base, draws, |draws|);
        BestIsLeast(laps);
        var recon := Reconciled(min, outOfSessionLaps, drivers, session, base, draws);
        assert forall i | 0 <= i < |laps| :: recon[i + 1] == laps[i];
        assert forall i | 0 < i <= |laps| :: recon[i] == laps[i - 1];
      }
    }
  }

  method GenerateReconciledSession(min: int, outOfSessionLaps: int, drivers: seq<Driver>, session: SessionId,
                                   base: int, draws: seq<int>)
    returns (out: seq<Event>)
    requires outOfSessionLaps > 0 ==> |draws| == outOfSessionLaps + 1
    ensures out == Reconciled(min, outOfSessionLaps, drivers, session, base, draws)
  {
    hide Ops, At, ReconciledLaps, Laps.After, Laps.Counts, Laps.OutcomeOfLast, Laps.Crossed;
    if outOfSessionLaps <= 0 || drivers == [] {
      return [];
    }
    var d := drivers[0];
    var tracker := new Laps.LapTracker(min);
    NothingReconciled(min, session, d.master, base, draws);
    var laps: seq<Event> := [];
    var best, count: nat, lastAt, at := 0, 0, base, base;
    for i := 0 to outOfSessionLaps + 1
      invariant fresh(tracker) && tracker.minLapTimeMs == min
      invariant at == At(base, draws, i)
      invariant tracker.State() == Laps.After(min, Laps.FRESH, Ops(base, draws, i))
      invariant laps == ReconciledLaps(min, session, d.master, base, draws, i)
      invariant count == |laps| && best == BestMs(laps) && lastAt == LastLapAt(laps, base)
    {
      OpsUnfold(min, base, draws, i);
      ReconciledUnfold(min, session, d.master, base, draws, i);
      assert laps + [] == laps;
      var outcome := tracker.Cross(at);
      if outcome.Counted? {
        ghost var before := laps;
        laps := laps + [LapRecorded(d.master, session, outcome.number, outcome.ms, at)];
        assert laps[..|before|] == before;
        if count == 0 || outcome.ms < best {
          best := outcome.ms;
        }
        count := count + 1;
        lastAt := at;
      }
      at := at + draws[i];
    }
    if count == 0 {
      return [];
    }
    out := [SessionStarted(session, base)] + laps
      + [SessionEnded(session, lastAt, [SummaryRow(d.master, best, count)])];
  }

  lemma {:induction false} ReconciledLapsBracketed(min: int, session: SessionId, master: Token, base: int,
                                                   draws: seq<int>, n: nat)
    requires n <= |draws|
    ensures var q := Track(Inside(session, false, None), ReconciledLaps(min, session, master, base, draws, n));
      q.Some? && q.value.Inside? && q.value.session == session && !q.value.down
  {
    hide Track, Laps.OutcomeOfLast, Ops, At;
    if n == 0 {
      TrackNone(Inside(session, false, None));
    } else {
      var laps := ReconciledLaps(min, session, master, base, draws, n - 1);
      ReconciledLapsBracketed(min, session, master, base, draws, n - 1);
      var all := ReconciledLaps(min, session, master, base, draws, n);
      if all != laps {
        TrackAppend(Inside(session, false, None), laps, all[|laps|]);
      }
    }
  }

  lemma WrappedIsBracketed(session: SessionId, base: int, laps: seq<Event>, end: Event)
    requires end.SessionEnded? && end.session == session
    requires var q := Track(Inside(session, false, None), laps);
      q.Some? && q.value.Inside? && q.value.session == session && !q.value.down
    ensures Track(Outside, [SessionStarted(session, base)] + laps + [end]) == Some(Outside)
  {
    var start := [SessionStarted(session, base)];
    TrackOne(Outside, start[0]);
    TrackJoin(Outside, start, laps);
    TrackJoin(Outside, start + laps, [end]);
    TrackOne(Track(Inside(session, false, None), laps).value, end);
  }

  // ----- The run -----------------------------------------------------------------------------------

  /** What one event puts on the trace: a lap that beats the copy read just then is
      followed by its break. */
  function Emitted(e: Event, copy: Option<int>): seq<Event> {
    if e.LapRecorded? && (copy.None? || e.ms < copy.value)
    then [e, RecordBroken(e.master, e.session, e.ms, copy, e.at)]
    else [e]
  }

  function WithBreaks(events: seq<Event>, copies: nat -> Option<int>): seq<Event> {
    if events == [] then [] else
    WithBreaks(events[..|events| - 1], copies) + Emitted(events[|events| - 1], copies(|events| - 1))
  }

  // Which laps are announced, position by position.

  /** An event as it is emitted, and what the local record copy reads just then. */
  datatype Read = Read(event: Event, copy: Option<int>)

  function Reads(events: seq<Event>, copies: nat -> Option<int>): seq<Read> {
    seq(|events|, i requires 0 <= i < |events| => Read(events[i], copies(i)))
  }

  /** Every event a completed run emits by itself, in order. */
  function RunReads(plans: seq<Plan>): seq<Read> {
    if plans == [] then [] else
    var plan := plans[|plans| - 1];
    var r := RaceOf(plan.cfg, plan.session, plan.base, plan.drivers, plan.crossings);
    RunReads(plans[..|plans| - 1]) + Reads(Session(r, plan.drivers), plan.copies)
    + Reads(ReconciledAfter(plan, LastAt(r, |r.cs|)), plan.oosCopies)
  }

  /** The event stands at `here`. A lap with no record to beat, or one it beats, has its break
      with the beaten value right behind it; the next event follows at once. */
  predicate Stands(x: Read, here: int, next: int, trace: seq<Event>) {
    && 0 <= here < |trace| && trace[here] == x.event
    && if x.event.LapRecorded? && (x.copy.None? || x.event.ms < x.copy.value) then
         && next == here + 2 <= |trace|
         && trace[here + 1] == RecordBroken(x.event.master, x.event.session, x.event.ms, x.copy, x.event.at)
       else next == here + 1
  }

  /** The trace is the events in order, event k at f[k], with their breaks and nothing else. */
  ghost predicate Announces(trace: seq<Event>, told: seq<Read>, f: seq<int>) {
    && |f| == |told| + 1 && f[0] == 0 && f[|told|] == |trace|
    && forall k | 0 <= k < |told| :: Stands(told[k], f[k], f[k + 1], trace)
  }

  lemma AnnouncesJoin(s: seq<Event>, xs: seq<Read>, f: seq<int>, t: seq<Event>, ys: seq<Read>, g: seq<int>)
    returns (h: seq<int>)
    requires Announces(s, xs, f) && Announces(t, ys, g)
    ensures Announces(s + t, xs + ys, h)
  {
    var m, n := |xs|, |ys|;
    h := f[..m] + seq(n + 1, i requires 0 <= i <= n => |s| + g[i]);
    assert forall k | 0 <= k <= m :: h[k] == f[k];
    assert forall k | 0 <= k <= n :: h[m + k] == |s| + g[k];
    forall k | 0 <= k < m + n ensures Stands((xs + ys)[k], h[k], h[k + 1], s + t) {
      if k < m {
        assert Stands(xs[k], f[k], f[k + 1], s);
      } else {
        assert Stands(ys[k - m], g[k - m], g[k - m + 1], t);
        assert h[m + (k - m)] == |s| + g[k - m] && h[m + (k - m + 1)] == |s| + g[k - m + 1];
      }
    }
  }

  lemma {:induction false} EachRecordIsAnnounced(events: seq<Event>, copies: nat -> Option<int>)
    returns (f: seq<int>)
    ensures Announces(WithBreaks(events, copies), Reads(events, copies), f)
  {
    f := [0];
    if events != [] {
      var front, i := events[..|events| - 1], |events| - 1;
      f := EachRecordIsAnnounced(front, copies);
      var e := Emitted(events[i], copies(i));
      assert Announces(e, [Read(events[i], copies(i))], [0, |e|]);
      f := AnnouncesJoin(WithBreaks(front, copies), Reads(front, copies), f, e, [Read(events[i], copies(i))], [0, |e|]);
      assert Reads(events, copies) == Reads(front, copies) + [Read(events[i], copies(i))];
    }
  }

  /** Main theorem: in a completed run each lap that beats the copy read behind it, or finds
      none, is followed by its break with the beaten value; no other lap is, and the trace
      holds nothing but the events and these breaks. */
  lemma {:induction false} RunAnnouncesEachRecord(plans: seq<Plan>) returns (f: seq<int>)
    ensures Announces(RunTraceOf(plans), RunReads(plans), f)
  {
    hide WithBreaks, Announces, Session, Reconciled, LastAt, SortByTime, Reads;
    if plans == [] {
      f := NothingToAnnounce();
    } else {
      var front, plan := plans[..|plans| - 1], plans[|plans| - 1];
      var r := RaceOf(plan.cfg, plan.session, plan.base, plan.drivers, plan.crossings);
      var events, recon := Session(r, plan.drivers), ReconciledAfter(plan, LastAt(r, |r.cs|));
      f := RunAnnouncesEachRecord(front);
      var g := EachRecordIsAnnounced(events, plan.copies);
      f := AnnouncesJoin(RunTraceOf(front), RunReads(front), f, WithBreaks(events, plan.copies),
        Reads(events, plan.copies), g);
      g := EachRecordIsAnnounced(recon, plan.oosCopies);
      f := AnnouncesJoin(RunTraceOf(front) + WithBreaks(events, plan.copies),
        RunReads(front) + Reads(events, plan.copies), f, WithBreaks(recon, plan.oosCopies),
        Reads(recon, plan.oosCopies), g);
      assert RunTraceOf(plans) ==
        RunTraceOf(front) + WithBreaks(events, plan.copies) + WithBreaks(recon, plan.oosCopies);
    }
  }

  lemma NothingToAnnounce() returns (f: seq<int>)
    ensures Announces([], [], f)
  {
    f := [0];
  }

  predicate NoBreaks(events: seq<Event>) { forall i | 0 <= i < |events| :: !events[i].RecordBroken? }

  /** Phases that differ only in the remembered lap accept the same ordinary events. */
  lemma AlikeAdvance(p: Phase, q: Phase, e: Event)
    requires !e.RecordBroken? && Alike(p, q)
    ensures Advance(p, e).Some? <==> Advance(q, e).Some?
    ensures Advance(p, e).Some? ==> Alike(Advance(p, e).value, Advance(q, e).value)
  {
  }

  predicate Alike(p: Phase, q: Phase) {
    if p.Outside? then q.Outside? else q.Inside? && p.session == q.session && p.down == q.down
  }

  /** One Run iteration's inputs: who drives, the drawn crossings, the drawn
      out-of-session laps, the clock in the gap, and what the local record copy reads before
      each check. */
  datatype Plan = Plan(cfg: Config, session: SessionId, base: int, drivers: seq<Driver>, crossings: seq<Crossing>,
                       oosLaps: int, oosSession: SessionId, draws: seq<int>, clock: int,
                       copies: nat -> Option<int>, oosCopies: nat -> Option<int>)

  /** Everything one iteration emits: the session, then the reconciled session based at
      its end, each lap with its break. */
  function IterationTrace(plan: Plan): seq<Event> {
    var r := RaceOf(plan.cfg, plan.session, plan.base, plan.drivers, plan.crossings);
    WithBreaks(Session(r, plan.drivers), plan.copies)
    + WithBreaks(ReconciledAfter(plan, LastAt(r, |r.cs|)), plan.oosCopies)
  }

  function Take<T>(xs: seq<T>, n: nat): seq<T> { if n <= |xs| then xs[..n] else xs }
  function Left(budget: nat, n: nat): nat { if n <= budget then budget - n else 0 }

  function Cost(plans: seq<Plan>): nat {
    if plans == [] then 0 else
    var plan := plans[|plans| - 1];
    Cost(plans[..|plans| - 1]) + |HeldOf(plan)| + |IterationTrace(plan)|
  }

  /** What a run emits and holds before its budget of successful calls is spent. */
  function Within(plans: seq<Plan>, budget: nat): (seq<Event>, seq<HeldScan>) {
    if plans == [] then ([], []) else
    var front, plan := plans[..|plans| - 1], plans[|plans| - 1];
    if budget < Cost(front) then Within(front, budget) else
    var left := budget - Cost(front);
    (RunTraceOf(front) + Take(IterationTrace(plan), Left(left, |HeldOf(plan)|)),
     AllHeld(front) + Take(HeldOf(plan), left))
  }

  /** A run stopped anywhere has emitted and held a prefix of the whole run, and it was
      stopped exactly when the budget was short. */
  lemma {:induction false} StoppedRunIsAPrefix(plans: seq<Plan>, budget: nat)
    ensures var (trace, held) := Within(plans, budget);
      && trace <= RunTraceOf(plans) && held <= AllHeld(plans)
      && |trace| + |held| == (if budget < Cost(plans) then budget else Cost(plans))
      && (Cost(plans) <= budget <==> trace == RunTraceOf(plans) && held == AllHeld(plans))
    ensures Cost(plans) == |RunTraceOf(plans)| + |AllHeld(plans)|
  {
    hide IterationTrace, HeldOf;
    if plans != [] {
      StoppedRunIsAPrefix(plans[..|plans| - 1], budget);
    }
  }

  function ReconciledAfter(plan: Plan, base: int): seq<Event> {
    Reconciled(plan.cfg.minLap, plan.oosLaps, plan.drivers, plan.oosSession, base, plan.draws)
  }

  function RunTraceOf(plans: seq<Plan>): seq<Event> {
    if plans == [] then [] else RunTraceOf(plans[..|plans| - 1]) + IterationTrace(plans[|plans| - 1])
  }

  class Simulator {
    var trace: seq<Event>         // everything enqueued in the outbox
    var held: seq<HeldScan>       // everything recorded for an operator
    var budget: nat               // seam calls that still succeed before cancellation or an error
    var active: bool
    var sessionId: SessionId
    var lastEndedAt: Option<int>

    /** The session-active flag mirrors the trace. */
    ghost predicate Valid()
      reads this
    {
      && Track(Outside, trace).Some?
      && (active <==> Track(Outside, trace).value.Inside?)
      && (active ==> sessionId == Track(Outside, trace).value.session)
    }

    ghost function Phase(): Phase
      requires Valid()
      reads this
    {
      Track(Outside, trace).value
    }

    constructor (budget: nat)
      ensures Valid() && trace == [] && held == [] && !active
    {
      this.budget := budget;
      trace, held, active, sessionId, lastEndedAt := [], [], false, "", None;
    }

    method Enqueue(e: Event) returns (ok: bool)
      modifies this`trace, this`budget
      ensures ok <==> old(budget) > 0
      ensures trace == (if ok then old(trace) + [e] else old(trace)) && budget == Left(old(budget), 1)
    {
      ok := budget > 0;
      if ok {
        trace, budget := trace + [e], budget - 1;
      }
    }

    /** Enqueue one event; after a lap, check the record and enqueue a break right behind it. */
    method EmitEnvelope(e: Event, copy: Option<int>) returns (ok: bool)
      requires Valid() && !e.RecordBroken? && Advance(Phase(), e).Some?
      modifies this
      ensures Track(Outside, trace).Some?
      ensures ok <==> |Emitted(e, copy)| <= old(budget)
      ensures trace == old(trace) + Take(Emitted(e, copy), old(budget))
      ensures budget == Left(old(budget), |Emitted(e, copy)|)
      ensures ok && e.LapRecorded? && (copy.None? || e.ms < copy.value) ==>
        trace == old(trace) + [e, RecordBroken(e.master, e.session, e.ms, copy, e.at)]
      ensures ok && !(e.LapRecorded? && (copy.None? || e.ms < copy.value)) ==> trace == old(trace) + [e]
      ensures ok ==> Valid() && Alike(Phase(), Advance(old(Phase()), e).value)
      ensures ok ==> lastEndedAt == if e.SessionEnded? then Some(e.at) else old(lastEndedAt)
      ensures held == old(held)
    {
      hide Track;
      TrackAppend(Outside, trace, e);
      ok := Enqueue(e);
      if ok && e.LapRecorded? {
        ok := ObservePR(e, copy);
      }
      assert trace == old(trace) + Take(Emitted(e, copy), old(budget));
      if !ok {
        return;
      }
      match e
      case SessionStarted(s, _) => sessionId, active := s, true;
      case SessionEnded(_, at, _) => active, lastEndedAt := false, Some(at);
      case _ =>
    }

    /** Live record detection for the lap just enqueued. */
    method ObservePR(lap: Event, copy: Option<int>) returns (ok: bool)
      requires lap.LapRecorded? && Track(Outside, trace).Some?
      requires Track(Outside, trace).value.Inside? && Track(Outside, trace).value.lastLap == Some(lap)
      modifies this`trace, this`budget
      ensures Track(Outside, trace).Some? && Alike(Track(Outside, trace).value, Track(Outside, old(trace)).value)
      ensures ok <==> |Emitted(lap, copy)| - 1 <= old(budget)
      ensures trace == old(trace) + Take(Emitted(lap, copy)[1..], old(budget))
      ensures budget == Left(old(budget), |Emitted(lap, copy)| - 1)
      ensures ok <==> (copy.Some? && copy.value <= lap.ms) || old(budget) > 0
      ensures trace ==
        if copy.Some? && copy.value <= lap.ms then old(trace)
        else if old(budget) == 0 then old(trace)
        else old(trace) + [RecordBroken(lap.master, lap.session, lap.ms, copy, lap.at)]
    {
      hide Track;
      ok := true;
      var verdict := PR.CheckPR(copy, lap.ms);
      if verdict.broken {
        var b := RecordBroken(lap.master, lap.session, lap.ms, verdict.previous, lap.at);
        assert Emitted(lap, copy)[1..] == [b];
        TrackAppend(Outside, trace, b);
        ok := Enqueue(b);
      } else {
        assert Emitted(lap, copy)[1..] == [];
      }
    }

    method EmitAll(events: seq<Event>, copies: nat -> Option<int>) returns (ok: bool)
      requires Valid() && NoBreaks(events) && Track(Phase(), events).Some?
      modifies this
      ensures Track(Outside, trace).Some?
      ensures ok <==> |WithBreaks(events, copies)| <= old(budget)
      ensures trace == old(trace) + Take(WithBreaks(events, copies), old(budget))
      ensures budget == Left(old(budget), |WithBreaks(events, copies)|)
      ensures ok ==> Valid() && Alike(Phase(), Track(old(Phase()), events).value)
      ensures ok && events != [] && events[|events| - 1].SessionEnded? ==>
        lastEndedAt == Some(events[|events| - 1].at)
      ensures held == old(held)
    {
      hide Track, WithBreaks, Emitted;
      ghost var p := Phase();
      ok := true;
      assert events[..0] == [];
      TrackNone(p);
      NoEvents(copies);
      for i := 0 to |events|
        invariant Valid() && ok
        invariant Track(p, events[..i]).Some? && Alike(Phase(), Track(p, events[..i]).value)
        invariant |WithBreaks(events[..i], copies)| + budget == old(budget)
        invariant trace == old(trace) + WithBreaks(events[..i], copies)
        invariant i > 0 && events[i - 1].SessionEnded? ==> lastEndedAt == Some(events[i - 1].at)
        invariant held == old(held)
      {
        NextIsAccepted(p, events, i);
        AlikeAdvance(Phase(), Track(p, events[..i]).value, events[i]);
        NextWithBreaks(events, copies, i);
        WithBreaksGrows(events, copies, i + 1);
        ghost var left := budget;
        ok := EmitEnvelope(events[i], copies(i));
        if !ok {
          TakeInside(WithBreaks(events[..i], copies), Emitted(events[i], copies(i)), WithBreaks(events, copies), left);
          return;
        }
      }
      assert events[..|events|] == events;
    }

    /** One iteration: hold the strays, emit the session, and in the gap reconcile. */
    method RunIteration(plan: Plan) returns (ok: bool)
      requires Valid() && !active
      requires plan.oosLaps > 0 ==> |plan.draws| == plan.oosLaps + 1
      modifies this
      ensures Track(Outside, trace).Some?
      ensures ok <==> |HeldOf(plan)| + |IterationTrace(plan)| <= old(budget)
      ensures held == old(held) + Take(HeldOf(plan), old(budget))
      ensures trace == old(trace) + Take(IterationTrace(plan), Left(old(budget), |HeldOf(plan)|))
      ensures budget == Left(old(budget), |HeldOf(plan)| + |IterationTrace(plan)|)
      ensures ok ==> Valid() && !active
    {
      hide Session, HeldTo, SortByTime, Track, WithBreaks, Reconciled, LastAt;
      ghost var r := RaceOf(plan.cfg, plan.session, plan.base, plan.drivers, plan.crossings);
      active, sessionId, lastEndedAt := false, "", None;
      var events, strays := GenerateSession(plan.cfg, plan.session, plan.base, plan.drivers, plan.crossings);
      ok := HoldAll(strays);
      if !ok {
        return;
      }
      SessionIsBracketed(r, plan.drivers);
      SessionHasNoBreaks(r, plan.drivers);
      SessionEndsLast(r, plan.drivers);
      ghost var main := WithBreaks(Session(r, plan.drivers), plan.copies);
      ghost var gap := WithBreaks(ReconciledAfter(plan, LastAt(r, |r.cs|)), plan.oosCopies);
      TakeBoth(main, gap, budget);
      ok := EmitAll(events, plan.copies);
      if !ok {
        return;
      }
      ok := EmitReconciledSession(plan);
    }

    /** The strays are recorded for an operator before anything is emitted. */
    method HoldAll(strays: seq<HeldScan>) returns (ok: bool)
      requires Valid()
      modifies this`held, this`budget
      ensures Valid()
      ensures ok <==> |strays| <= old(budget)
      ensures held == old(held) + Take(strays, old(budget)) && budget == Left(old(budget), |strays|)
    {
      for i := 0 to |strays|
        invariant Valid() && i + budget == old(budget)
        invariant held == old(held) + strays[..i]
      {
        if budget == 0 {
          return false;
        }
        held, budget := held + [strays[i]], budget - 1;
      }
      assert strays[..|strays|] == strays;
      return true;
    }

    /** Fires only while no session is active; based at the end of the last session, or at
        the clock when none has ended. */
    method EmitReconciledSession(plan: Plan) returns (ok: bool)
      requires Valid()
      requires plan.oosLaps > 0 ==> |plan.draws| == plan.oosLaps + 1
      modifies this
      ensures Track(Outside, trace).Some?
      ensures ok ==> Valid() && active == old(active)
      ensures old(active) ==> ok && trace == old(trace) && budget == old(budget)
      ensures !old(active) ==>
        var base := if old(lastEndedAt).Some? then old(lastEndedAt).value else plan.clock;
        var recon := ReconciledAfter(plan, base);
        && (ok <==> |WithBreaks(recon, plan.oosCopies)| <= old(budget))
        && trace == old(trace) + Take(WithBreaks(recon, plan.oosCopies), old(budget))
        && budget == Left(old(budget), |WithBreaks(recon, plan.oosCopies)|)
      ensures held == old(held)
    {
      if plan.oosLaps <= 0 || active {
        return true;
      }
      var base := if lastEndedAt.Some? then lastEndedAt.value else plan.clock;
      var recon := GenerateReconciledSession(plan.cfg.minLap, plan.oosLaps, plan.drivers, plan.oosSession, base,
        plan.draws);
      if recon == [] {
        return true;
      }
      hide Track, WithBreaks, Reconciled;
      ReconciledIsBracketed(plan.cfg.minLap, plan.oosLaps, plan.drivers, plan.oosSession, base, plan.draws);
      ok := EmitAll(recon, plan.oosCopies);
    }

    /** Main theorem: however many sessions run and whatever is drawn, a run whose calls stop
        succeeding after `budget` of them has emitted and held exactly what its iterations
        call for up to there; it completes exactly when the budget covers them all, and the
        trace is well bracketed wherever it stops. */
    method Run(plans: seq<Plan>) returns (completed: bool)
      requires Valid() && trace == [] && held == [] && !active
      requires forall i | 0 <= i < |plans| && plans[i].oosLaps > 0 :: |plans[i].draws| == plans[i].oosLaps + 1
      modifies this
      ensures Accepted(trace)
      ensures completed <==> Cost(plans) <= old(budget)
      ensures (trace, held) == Within(plans, old(budget))
      ensures trace <= RunTraceOf(plans) && held <= AllHeld(plans)
      ensures completed ==> trace == RunTraceOf(plans) && held == AllHeld(plans)
      ensures completed ==> Track(Outside, trace) == Some(Outside)
      ensures completed ==> exists f :: Announces(trace, RunReads(plans), f)
    {
      hide IterationTrace, HeldOf, Track, Within, Cost, RunTraceOf, AllHeld, Announces, RunReads;
      completed := true;
      StoppedRunIsAPrefix(plans, budget);
      NoPlans();
      assert plans[..0] == [];
      for i := 0 to |plans|
        invariant Valid() && !active && completed
        invariant Cost(plans[..i]) + budget == old(budget)
        invariant trace == RunTraceOf(plans[..i]) && held == AllHeld(plans[..i])
      {
        NextPlan(plans, i);
        completed := RunIteration(plans[i]);
        if !completed {
          StoppedInside(plans, i, old(budget));
          return;
        }
      }
      assert plans[..|plans|] == plans;
      var _ := RunAnnouncesEachRecord(plans);
    }
  }

  lemma NoPlans()
    ensures Cost([]) == 0 && RunTraceOf([]) == [] && AllHeld([]) == []
  {
  }

  lemma NextPlan(plans: seq<Plan>, i: nat)
    requires i < |plans|
    ensures Cost(plans[..i + 1]) == Cost(plans[..i]) + |HeldOf(plans[i])| + |IterationTrace(plans[i])|
    ensures RunTraceOf(plans[..i + 1]) == RunTraceOf(plans[..i]) + IterationTrace(plans[i])
    ensures AllHeld(plans[..i + 1]) == AllHeld(plans[..i]) + HeldOf(plans[i])
  {
    hide IterationTrace, HeldOf;
    assert plans[..i + 1][..i] == plans[..i];
  }

  /** A budget that runs out in iteration i is not touched by the later ones. */
  lemma {:induction false} StoppedInside(plans: seq<Plan>, i: nat, budget: nat)
    requires i < |plans| && Cost(plans[..i]) <= budget < Cost(plans[..i + 1])
    ensures budget < Cost(plans)
    ensures var left := budget - Cost(plans[..i]);
      Within(plans, budget) == (RunTraceOf(plans[..i]) + Take(IterationTrace(plans[i]), Left(left, |HeldOf(plans[i])|)),
                                AllHeld(plans[..i]) + Take(HeldOf(plans[i]), left))
  {
    hide IterationTrace, HeldOf;
    if i + 1 == |plans| {
      assert plans[..i + 1] == plans;
    } else {
      var front := plans[..|plans| - 1];
      assert front[..i] == plans[..i] && front[..i + 1] == plans[..i + 1];
      StoppedInside(front, i, budget);
    }
  }

  lemma TakeInside(xs: seq<Event>, ys: seq<Event>, all: seq<Event>, b: nat)
    requires xs + ys <= all && b < |ys|
    ensures Take(all, |xs| + b) == xs + Take(ys, b) && |xs| + b < |all|
  {
  }

  lemma TakeBoth(xs: seq<Event>, ys: seq<Event>, b: nat)
    ensures Take(xs + ys, b) == Take(xs, b) + Take(ys, Left(b, |xs|))
    ensures Left(b, |xs + ys|) == Left(Left(b, |xs|), |ys|)
  {
  }

  lemma {:induction false} WithBreaksGrows(events: seq<Event>, copies: nat -> Option<int>, n: nat)
    requires n <= |events|
    ensures WithBreaks(events[..n], copies) <= WithBreaks(events, copies)
  {
    if n == |events| {
      assert events[..n] == events;
    } else {
      assert events[..|events| - 1][..n] == events[..n];
      WithBreaksGrows(events[..|events| - 1], copies, n);
    }
  }

  function HeldOf(plan: Plan): seq<HeldScan> {
    var r := RaceOf(plan.cfg, plan.session, plan.base, plan.drivers, plan.crossings);
    HeldTo(r, |r.cs|)
  }

  function AllHeld(plans: seq<Plan>): seq<HeldScan> {
    if plans == [] then [] else AllHeld(plans[..|plans| - 1]) + HeldOf(plans[|plans| - 1])
  }

  lemma SessionEndsLast(r: Race, drivers: seq<Driver>)
    ensures var events := Session(r, drivers);
      events != [] && events[|events| - 1].SessionEnded? && events[|events| - 1].at == LastAt(r, |r.cs|)
  {
  }

  lemma NoEvents(copies: nat -> Option<int>)
    ensures WithBreaks([], copies) == []
  {
  }

  lemma NextWithBreaks(events: seq<Event>, copies: nat -> Option<int>, i: nat)
    requires i < |events|
    ensures WithBreaks(events[..i + 1], copies) == WithBreaks(events[..i], copies) + Emitted(events[i], copies(i))
  {
    assert events[..i + 1][..i] == events[..i];
  }

  lemma NextIsAccepted(p: Phase, events: seq<Event>, i: nat)
    requires i < |events| && Track(p, events).Some?
    ensures Track(p, events[..i]).Some? && Track(p, events[..i + 1]).Some?
    ensures Track(p, events[..i + 1]) == Advance(Track(p, events[..i]).value, events[i])
  {
    assert events == events[..i + 1] + events[i + 1..];
    TrackJoin(p, events[..i + 1], events[i + 1..]);
    assert events[..i + 1] == events[..i] + [events[i]];
    TrackJoin(p, events[..i], [events[i]]);
    if Track(p, events[..i]).Some? {
      TrackOne(Track(p, events[..i]).value, events[i]);
    }
  }

  lemma {:induction false} WalkHasNoBreaks(r: Race, n: nat)
    requires n <= |r.cs|
    ensures NoBreaks(EventsTo(r, n))
  {
    if n > 0 {
      WalkHasNoBreaks(r, n - 1);
      assert NoBreaks(EventsAt(r, n - 1));
    }
  }

  lemma SessionHasNoBreaks(r: Race, drivers: seq<Driver>)
    ensures NoBreaks(Session(r, drivers))
  {
    WalkHasNoBreaks(r, |r.cs|);
    assert NoBreaks(CheckIns(drivers, r.base));
  }

  lemma {:induction false} ReconciledLapsNoBreaks(min: int, session: SessionId, master: Token, base: int,
                                                  draws: seq<int>, n: nat)
    requires n <= |draws|
    ensures NoBreaks(ReconciledLaps(min, session, master, base, draws, n))
  {
    if n > 0 {
      ReconciledLapsNoBreaks(min, session, master, base, draws, n - 1);
    }
  }

  lemma ReconciledIsBracketed(min: int, outOfSessionLaps: int, drivers: seq<Driver>, session: SessionId, base: int,
                              draws: seq<int>)
    ensures var recon := Reconciled(min, outOfSessionLaps, drivers, session, base, draws);
      Track(Outside, recon) == Some(Outside) && NoBreaks(recon)
  {
    hide Track, ReconciledLaps;
    TrackNone(Outside);
    if drivers != [] {
      var laps := ReconciledLaps(min, session, drivers[0].master, base, draws, |draws|);
      ReconciledLapsBracketed(min, session, drivers[0].master, base, draws, |draws|);
      ReconciledLapsNoBreaks(min, session, drivers[0].master, base, draws, |draws|);
      WrappedIsBracketed(session, base, laps,
        SessionEnded(session, LastLapAt(laps, base), [SummaryRow(drivers[0].master, BestMs(laps), |laps|)]));
    }
  }
}
