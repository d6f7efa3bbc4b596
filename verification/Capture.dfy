/** Race capture: one session's crossings become laps, held scans, a flagged scanner
    outage and a per-driver summary. */
module Capture {
  import opened Base
  import Laps

  type Token = string
  type SessionId = string

  datatype Crossing = Crossing(token: Token, transponder: bool, at: int)
  datatype Driver = Driver(master: Token, transponderId: Option<string>)
  datatype Config = Config(minLap: int, outageLaps: int)
  datatype HeldScan = HeldScan(token: Token, transponder: bool, session: SessionId, at: int)
  datatype SummaryRow = SummaryRow(master: Token, best: int, count: nat)

  datatype Event =
    | SessionStarted(session: SessionId, at: int)
    | CheckedIn(master: Token, transponderId: Option<string>, at: int)
    | LapRecorded(master: Token, session: SessionId, number: nat, ms: int, at: int)
    | RecordBroken(master: Token, session: SessionId, ms: int, previous: Option<int>, at: int)
    | ScannerOffline(gapFrom: int, since: int)
    | ScannerOnline(at: int)
    | SessionEnded(session: SessionId, at: int, summary: seq<SummaryRow>)

  // ----- The outage window ----------------------------------------------------------------

  datatype Window = Window(active: bool, first: nat, past: nat)

  function OutageWindow(n: nat, outageLaps: int): Window {
    if outageLaps <= 0 || n <= 2 then Window(false, 0, 0) else
    var first := if n / 3 < 1 then 1 else n / 3;
    var past := if first + outageLaps > n - 1 then n - 1 else first + outageLaps;
    if past <= first then Window(false, 0, 0) else Window(true, first, past)
  }

  /** An outage, when configured and the stream has three crossings, always leaves a
      crossing before it and one after it. */
  lemma WindowLeavesBothSides(n: nat, outageLaps: int)
    ensures var w := OutageWindow(n, outageLaps);
      && (w.active <==> outageLaps > 0 && n > 2)
      && (w.active ==> 1 <= w.first < w.past < n && w.past - w.first <= outageLaps)
      && (w.active ==> 3 * w.first <= n < 3 * w.first + 3)
      && (w.active ==> w.past - w.first == outageLaps || (w.past - w.first < outageLaps && w.past == n - 1))
  {
  }

  predicate Missed(w: Window, i: int) { w.active && w.first <= i < w.past }

  // ----- The walk over the sorted crossings --------------------------------------------------

  /** The fixed surroundings of a walk: settings, who checked in, and the stream. */
  datatype Race = Race(cfg: Config, session: SessionId, base: int, registered: set<Token>, cs: seq<Crossing>) {
    function Outage(): Window { OutageWindow(|cs|, cfg.outageLaps) }
  }

  datatype Walk = Walk(trackers: map<Token, Laps.Tracker>, pending: set<Token>)

  /** What becomes of a crossing. */
  datatype Fate = Dropped | Held | Crossed(outcome: Laps.Outcome)

  /** Recovery drops the baseline of a driver with a missed crossing. */
  function Baseline(w: Walk, token: Token): Laps.Tracker
    requires token in w.trackers
  {
    if token in w.pending then w.trackers[token].(prev := None) else w.trackers[token]
  }

  function StepWalk(r: Race, w: Walk, i: nat): (Walk, Fate)
    requires i < |r.cs| && w.trackers.Keys == r.registered
  {
    var c := r.cs[i];
    if Missed(r.Outage(), i) then (w.(pending := w.pending + {c.token}), Dropped)
    else if c.token !in r.registered then (w, Held)
    else
      var (tr, o) := Laps.Crossed(r.cfg.minLap, Baseline(w, c.token), c.at);
      (Walk(w.trackers[c.token := tr], w.pending - {c.token}), Crossed(o))
  }

  function WalkTo(r: Race, n: nat): (w: Walk)
    requires n <= |r.cs|
    ensures w.trackers.Keys == r.registered
  {
    if n == 0 then Walk(map d | d in r.registered :: Laps.FRESH, {})
    else StepWalk(r, WalkTo(r, n - 1), n - 1).0
  }

  function FateAt(r: Race, i: nat): Fate
    requires i < |r.cs|
  {
    StepWalk(r, WalkTo(r, i), i).1
  }

  predicate IsLap(r: Race, i: nat)
    requires i < |r.cs|
  {
    FateAt(r, i).Crossed? && FateAt(r, i).outcome.Counted?
  }

  function LapEvent(r: Race, i: nat): Event
    requires i < |r.cs| && IsLap(r, i)
  {
    LapRecorded(r.cs[i].token, r.session, FateAt(r, i).outcome.number, FateAt(r, i).outcome.ms, r.cs[i].at)
  }

  function EventsAt(r: Race, i: nat): seq<Event>
    requires i < |r.cs|
  {
    var w := r.Outage();
    if Missed(w, i) then
      WindowLeavesBothSides(|r.cs|, r.cfg.outageLaps);
      if i == w.first then [ScannerOffline(r.cs[w.first - 1].at, r.cs[w.first].at)] else []
    else
      (if w.active && i == w.past then [ScannerOnline(r.cs[i].at)] else []) + LapPart(r, i)
  }

  function LapPart(r: Race, i: nat): seq<Event>
    requires i < |r.cs|
  {
    if IsLap(r, i) then [LapEvent(r, i)] else []
  }

  function EventsTo(r: Race, n: nat): seq<Event>
    requires n <= |r.cs|
  {
    if n == 0 then [] else EventsTo(r, n - 1) + EventsAt(r, n - 1)
  }

  function HeldTo(r: Race, n: nat): seq<HeldScan>
    requires n <= |r.cs|
  {
    if n == 0 then [] else
    var c := r.cs[n - 1];
    HeldTo(r, n - 1) + if FateAt(r, n - 1).Held? then [HeldScan(c.token, c.transponder, r.session, c.at)] else []
  }

  datatype Agg = Agg(best: int, count: nat)

  function Tally(agg: map<Token, Agg>, token: Token, ms: int): map<Token, Agg> {
    if token !in agg then agg[token := Agg(ms, 1)]
    else agg[token := Agg(if ms < agg[token].best then ms else agg[token].best, agg[token].count + 1)]
  }

  function TallyTo(r: Race, n: nat): map<Token, Agg>
    requires n <= |r.cs|
  {
    if n == 0 then map[]
    else if IsLap(r, n - 1) then Tally(TallyTo(r, n - 1), r.cs[n - 1].token, FateAt(r, n - 1).outcome.ms)
    else TallyTo(r, n - 1)
  }

  function LastAt(r: Race, n: nat): int
    requires n <= |r.cs|
  {
    if n == 0 then r.base else if IsLap(r, n - 1) then r.cs[n - 1].at else LastAt(r, n - 1)
  }

  function SummaryRows(drivers: seq<Driver>, agg: map<Token, Agg>): seq<SummaryRow> {
    if drivers == [] then [] else
    var d := drivers[|drivers| - 1].master;
    SummaryRows(drivers[..|drivers| - 1], agg) + if d in agg then [SummaryRow(d, agg[d].best, agg[d].count)] else []
  }

  function CheckIns(drivers: seq<Driver>, base: int): (r: seq<Event>)
    ensures |r| == |drivers|
  {
    seq(|drivers|, i requires 0 <= i < |drivers| => CheckedIn(drivers[i].master, drivers[i].transponderId, base))
  }

  function Masters(drivers: seq<Driver>): set<Token> { set i | 0 <= i < |drivers| :: drivers[i].master }

  /** Stable sort by time, as the stream arrives. */
  function InsertByTime(cs: seq<Crossing>, c: Crossing): (r: seq<Crossing>)
    ensures multiset(r) == multiset(cs) + multiset{c}
  {
    if cs == [] || cs[|cs| - 1].at <= c.at then cs + [c]
    else
      assert cs == cs[..|cs| - 1] + [cs[|cs| - 1]];
      InsertByTime(cs[..|cs| - 1], c) + [cs[|cs| - 1]]
  }

  function SortByTime(cs: seq<Crossing>): (r: seq<Crossing>)
    ensures multiset(r) == multiset(cs)
  {
    if cs == [] then [] else
    assert cs == cs[..|cs| - 1] + [cs[|cs| - 1]];
    InsertByTime(SortByTime(cs[..|cs| - 1]), cs[|cs| - 1])
  }

  function RaceOf(cfg: Config, session: SessionId, base: int, drivers: seq<Driver>, crossings: seq<Crossing>): Race {
    Race(cfg, session, base, Masters(drivers), SortByTime(crossings))
  }

  function Session(r: Race, drivers: seq<Driver>): seq<Event> {
    [SessionStarted(r.session, r.base)] + CheckIns(drivers, r.base) + EventsTo(r, |r.cs|)
    + [SessionEnded(r.session, LastAt(r, |r.cs|), SummaryRows(drivers, TallyTo(r, |r.cs|)))]
  }

  lemma Unfold(r: Race, i: nat)
    requires i < |r.cs|
    ensures WalkTo(r, i + 1) == StepWalk(r, WalkTo(r, i), i).0
    ensures EventsTo(r, i + 1) == EventsTo(r, i) + EventsAt(r, i)
    ensures HeldTo(r, i + 1) == HeldTo(r, i) +
      if FateAt(r, i).Held? then [HeldScan(r.cs[i].token, r.cs[i].transponder, r.session, r.cs[i].at)] else []
    ensures TallyTo(r, i + 1) ==
      if IsLap(r, i) then Tally(TallyTo(r, i), r.cs[i].token, FateAt(r, i).outcome.ms) else TallyTo(r, i)
    ensures LastAt(r, i + 1) == if IsLap(r, i) then r.cs[i].at else LastAt(r, i)
  {
  }

  /** One turn of the walk, branch by branch. */
  lemma Branches(r: Race, i: nat)
    requires i < |r.cs|
    ensures var w, w1, c, o := WalkTo(r, i), WalkTo(r, i + 1), r.cs[i], r.Outage();
      var live := if o.active && i == o.past then [ScannerOnline(c.at)] else [];
      if Missed(o, i) then
        && w1 == w.(pending := w.pending + {c.token})
        && EventsTo(r, i + 1) == EventsTo(r, i)
           + (if i == o.first && i > 0 then [ScannerOffline(r.cs[i - 1].at, c.at)] else [])
        && HeldTo(r, i + 1) == HeldTo(r, i) && TallyTo(r, i + 1) == TallyTo(r, i) && LastAt(r, i + 1) == LastAt(r, i)
      else if c.token !in r.registered then
        && w1 == w && EventsTo(r, i + 1) == EventsTo(r, i) + live
        && HeldTo(r, i + 1) == HeldTo(r, i) + [HeldScan(c.token, c.transponder, r.session, c.at)]
        && TallyTo(r, i + 1) == TallyTo(r, i) && LastAt(r, i + 1) == LastAt(r, i)
      else
        var (tr, out) := Laps.Crossed(r.cfg.minLap, Baseline(w, c.token), c.at);
        && w1 == Walk(w.trackers[c.token := tr], w.pending - {c.token})
        && HeldTo(r, i + 1) == HeldTo(r, i)
        && (if out.Counted? then
              && EventsTo(r, i + 1) == EventsTo(r, i) + live
                 + [LapRecorded(c.token, r.session, out.number, out.ms, c.at)]
              && TallyTo(r, i + 1) == Tally(TallyTo(r, i), c.token, out.ms) && LastAt(r, i + 1) == c.at
            else
              && EventsTo(r, i + 1) == EventsTo(r, i) + live
              && TallyTo(r, i + 1) == TallyTo(r, i) && LastAt(r, i + 1) == LastAt(r, i))
  {
    hide EventsTo, HeldTo, TallyTo, LastAt, Tally, Laps.Crossed, OutageWindow;
    WindowLeavesBothSides(|r.cs|, r.cfg.outageLaps);
    Unfold(r, i);
  }

  lemma NothingYet(r: Race)
    ensures WalkTo(r, 0) == Walk(map d | d in r.registered :: Laps.FRESH, {})
    ensures EventsTo(r, 0) == [] && HeldTo(r, 0) == [] && TallyTo(r, 0) == map[] && LastAt(r, 0) == r.base
  {
  }

  method BuildSummary(drivers: seq<Driver>, agg: map<Token, Agg>) returns (rows: seq<SummaryRow>)
    ensures rows == SummaryRows(drivers, agg)
  {
    rows := [];
    for i := 0 to |drivers|
      invariant rows == SummaryRows(drivers[..i], agg)
    {
      assert drivers[..i + 1][..i] == drivers[..i];
      var d := drivers[i].master;
      if d in agg {
        rows := rows + [SummaryRow(d, agg[d].best, agg[d].count)];
      }
    }
    assert drivers[..|drivers|] == drivers;
  }

  /** A session opens with its start and one check-in per driver, in order, all at its base
      time, and closes at its last lap, or at the base time when it has none. */
  lemma SessionShape(r: Race, drivers: seq<Driver>)
    ensures var out, k := Session(r, drivers), |Session(r, drivers)| - 1;
      && k > |drivers| && out[0] == SessionStarted(r.session, r.base)
      && (forall i | 0 <= i < |drivers| ::
            out[i + 1] == CheckedIn(drivers[i].master, drivers[i].transponderId, r.base))
      && out[|drivers| + 1..k] == EventsTo(r, |r.cs|)
      && out[k].SessionEnded? && out[k].session == r.session
      && var laps := LapsIn(EventsTo(r, |r.cs|));
         out[k].at == if laps == [] then r.base else laps[|laps| - 1].at
  {
    hide EventsTo, LapsIn, LastAt, TallyTo, SummaryRows;
    LastLapEnds(r, |r.cs|);
    CheckInsEach(drivers, r.base);
    var head := [SessionStarted(r.session, r.base)] + CheckIns(drivers, r.base);
    assert Session(r, drivers)[..|head|] == head;
  }

  lemma CheckInsEach(drivers: seq<Driver>, base: int)
    ensures forall i | 0 <= i < |drivers| ::
      CheckIns(drivers, base)[i] == CheckedIn(drivers[i].master, drivers[i].transponderId, base)
  {
  }

  lemma {:induction false} LastLapEnds(r: Race, n: nat)
    requires n <= |r.cs|
    ensures var laps := LapsIn(EventsTo(r, n)); LastAt(r, n) == if laps == [] then r.base else laps[|laps| - 1].at
  {
    hide FateAt, EventsTo, LapsIn;
    if n == 0 {
      NoLapsYet(r);
    } else {
      LastLapEnds(r, n - 1);
      LapsGrow(r, n - 1);
    }
  }

  /** The generator's loop over one session's drawn crossings. */
  method GenerateSession(cfg: Config, session: SessionId, base: int, drivers: seq<Driver>, crossings: seq<Crossing>)
    returns (out: seq<Event>, held: seq<HeldScan>)
    ensures var r := RaceOf(cfg, session, base, drivers, crossings);
      out == Session(r, drivers) && held == HeldTo(r, |r.cs|)
  {
    hide WalkTo, EventsTo, HeldTo, TallyTo, LastAt, Tally, SummaryRows, Laps.Crossed, OutageWindow, SortByTime;
    var cs := SortByTime(crossings);
    ghost var r := RaceOf(cfg, session, base, drivers, crossings);
    out := [SessionStarted(session, base)] + CheckIns(drivers, base);
    held := [];
    var checkedIn := Masters(drivers);
    var trackers: map<Token, Laps.Tracker> := map d | d in checkedIn :: Laps.FRESH;
    var summary: map<Token, Agg>, lastAt := map[], base;
    var w := OutageWindow(|cs|, cfg.outageLaps);
    WindowLeavesBothSides(|cs|, cfg.outageLaps);
    var pending: set<Token>, emittedOffline := {}, false;
    ghost var opening := out;
    NothingYet(r);
    for i := 0 to |cs|
      invariant trackers.Keys == checkedIn
      invariant Walk(trackers, pending) == WalkTo(r, i)
      invariant emittedOffline <==> w.active && i > w.first
      invariant out == opening + EventsTo(r, i)
      invariant held == HeldTo(r, i)
      invariant summary == TallyTo(r, i) && lastAt == LastAt(r, i)
    {
      Branches(r, i);
      var c := cs[i];
      if w.active && w.first <= i < w.past {
        if !emittedOffline {
          out := out + [ScannerOffline(cs[w.first - 1].at, cs[w.first].at)];
          emittedOffline := true;
        }
        pending := pending + {c.token};
        continue;
      }
      if w.active && emittedOffline && i == w.past {
        out := out + [ScannerOnline(c.at)];
      }
      if c.token !in checkedIn {
        held := held + [HeldScan(c.token, c.transponder, session, c.at)];
        continue;
      }
      var tr := trackers[c.token];
      if c.token in pending {
        tr := tr.(prev := None);
        pending := pending - {c.token};
      }
      var (tr1, outcome) := Laps.Crossed(cfg.minLap, tr, c.at);
      trackers := trackers[c.token := tr1];
      if outcome.Counted? {
        out := out + [LapRecorded(c.token, session, outcome.number, outcome.ms, c.at)];
        summary := Tally(summary, c.token, outcome.ms);
        lastAt := c.at;
      }
    }
    var rows := BuildSummary(drivers, summary);
    out := out + [SessionEnded(session, lastAt, rows)];
  }

  // ----- Every crossing is accounted for -------------------------------------------------------

  function CountTo(r: Race, n: nat, hit: Fate -> bool): nat
    requires n <= |r.cs|
  {
    if n == 0 then 0 else CountTo(r, n - 1, hit) + if hit(FateAt(r, n - 1)) then 1 else 0
  }

  function LapsIn(events: seq<Event>): (r: seq<Event>)
    ensures forall i | 0 <= i < |r| :: r[i].LapRecorded?
  {
    if events == [] then [] else
    LapsIn(events[..|events| - 1]) + if events[|events| - 1].LapRecorded? then [events[|events| - 1]] else []
  }

  lemma {:induction false} LapsInJoin(xs: seq<Event>, ys: seq<Event>)
    ensures LapsIn(xs + ys) == LapsIn(xs) + LapsIn(ys)
  {
    if ys == [] {
      assert xs + ys == xs;
    } else {
      assert (xs + ys)[..|xs + ys| - 1] == xs + ys[..|ys| - 1];
      LapsInJoin(xs, ys[..|ys| - 1]);
    }
  }

  lemma LapsAt(r: Race, i: nat)
    requires i < |r.cs|
    ensures LapsIn(EventsAt(r, i)) == if IsLap(r, i) then [LapEvent(r, i)] else []
  {
    var es := EventsAt(r, i);
    assert LapsIn([]) == [];
    if es != [] {
      assert es[..|es| - 1] == [] || (|es| == 2 && es[..1][..0] == []);
    }
  }

  lemma NoLapsYet(r: Race)
    ensures LapsIn(EventsTo(r, 0)) == []
  {
  }

  lemma LapsGrow(r: Race, i: nat)
    requires i < |r.cs|
    ensures LapsIn(EventsTo(r, i + 1)) == LapsIn(EventsTo(r, i)) + if IsLap(r, i) then [LapEvent(r, i)] else []
  {
    LapsInJoin(EventsTo(r, i), EventsAt(r, i));
    LapsAt(r, i);
  }

  /** Nothing vanishes and nothing is counted twice: each crossing is dropped, held,
      a start marker, a bounce or exactly one emitted lap. */
  lemma {:induction false} EveryCrossingIsAccountedFor(r: Race, n: nat)
    requires n <= |r.cs|
    ensures n == CountTo(r, n, (f: Fate) => f.Dropped?) + |HeldTo(r, n)|
                 + CountTo(r, n, (f: Fate) => f == Crossed(Laps.StartMarker))
                 + CountTo(r, n, (f: Fate) => f == Crossed(Laps.Rejected))
                 + |LapsIn(EventsTo(r, n))|
  {
    hide LapsIn, EventsTo, WalkTo;
    if n == 0 {
      NoLapsYet(r);
    } else {
      EveryCrossingIsAccountedFor(r, n - 1);
      LapsGrow(r, n - 1);
    }
  }

  lemma FateCases(r: Race, i: nat)
    requires i < |r.cs|
    ensures FateAt(r, i).Dropped? <==> Missed(r.Outage(), i)
    ensures FateAt(r, i).Held? <==> !Missed(r.Outage(), i) && r.cs[i].token !in r.registered
  {
  }

  /** Exactly the crossings of the window are dropped; the rest are held exactly when
      their token never checked in. */
  lemma {:induction false} DroppedAreTheWindow(r: Race, n: nat)
    requires n <= |r.cs|
    ensures var w := r.Outage();
      CountTo(r, n, (f: Fate) => f.Dropped?) ==
        if !w.active || n <= w.first then 0 else if n <= w.past then n - w.first else w.past - w.first
    ensures forall i | 0 <= i < n ::
      && (FateAt(r, i).Dropped? <==> Missed(r.Outage(), i))
      && (FateAt(r, i).Held? <==> !Missed(r.Outage(), i) && r.cs[i].token !in r.registered)
      && HeldTo(r, i + 1) == HeldTo(r, i) +
           if !Missed(r.Outage(), i) && r.cs[i].token !in r.registered
           then [HeldScan(r.cs[i].token, r.cs[i].transponder, r.session, r.cs[i].at)] else []
  {
    hide FateAt, OutageWindow;
    WindowLeavesBothSides(|r.cs|, r.cfg.outageLaps);
    if n > 0 {
      DroppedAreTheWindow(r, n - 1);
      FateCases(r, n - 1);
    }
  }

  // ----- The honest gap ------------------------------------------------------------------------

  /** Crossing i started or completed a lap: it is a timing baseline. */
  predicate IsBaseline(r: Race, i: nat)
    requires i < |r.cs|
  {
    FateAt(r, i).Crossed? && !FateAt(r, i).outcome.Rejected?
  }

  /** How one crossing moves a driver's tracker. */
  lemma TrackerMoves(r: Race, i: nat, d: Token)
    requires i < |r.cs| && d in r.registered
    ensures var w, w1 := WalkTo(r, i), WalkTo(r, i + 1);
      if r.cs[i].token != d then w1.trackers[d] == w.trackers[d] && (d in w1.pending <==> d in w.pending)
      else if Missed(r.Outage(), i) then d in w1.pending
      else if IsBaseline(r, i) then w1.trackers[d].prev == Some(r.cs[i].at) && d !in w1.pending
      else
        && FateAt(r, i) == Crossed(Laps.Rejected) && w1.trackers[d] == w.trackers[d]
        && d !in w.pending && d !in w1.pending
  {
    Unfold(r, i);
  }

  lemma {:induction false} BaselineOf(r: Race, n: nat, d: Token) returns (i: nat)
    requires n <= |r.cs| && d in r.registered
    requires d !in WalkTo(r, n).pending && WalkTo(r, n).trackers[d].prev.Some?
    ensures i < n && r.cs[i].token == d && IsBaseline(r, i)
    ensures r.cs[i].at == WalkTo(r, n).trackers[d].prev.value
    ensures forall k | i < k < n && r.cs[k].token == d :: FateAt(r, k) == Crossed(Laps.Rejected)
  {
    hide WalkTo, FateAt, OutageWindow, IsBaseline;
    if n == 0 {
      NothingYetOf(r, d);
    } else {
      TrackerMoves(r, n - 1, d);
      if r.cs[n - 1].token == d && IsBaseline(r, n - 1) {
        i := n - 1;
      } else {
        i := BaselineOf(r, n - 1, d);
      }
    }
  }

  lemma NothingYetOf(r: Race, d: Token)
    requires d in r.registered
    ensures WalkTo(r, 0).trackers[d].prev.None?
  {
  }

  /** Main theorem: a counted lap joins two baseline crossings of its driver, its time is
      exactly their distance, and between them that driver has only bounces: never a
      crossing the scanner missed. */
  lemma HonestGap(r: Race, j: nat) returns (i: nat)
    requires j < |r.cs| && IsLap(r, j)
    ensures i < j && r.cs[i].token == r.cs[j].token && IsBaseline(r, i)
    ensures FateAt(r, j).outcome.ms == r.cs[j].at - r.cs[i].at
    ensures forall k | i < k < j && r.cs[k].token == r.cs[j].token :: FateAt(r, k) == Crossed(Laps.Rejected)
  {
    i := BaselineOf(r, j, r.cs[j].token);
  }

  /** Crossing i is the baseline that crossing j of the same driver is timed from: none of its
      crossings in between was a baseline or was missed. */
  ghost predicate TimedFrom(r: Race, i: nat, j: nat)
    requires j < |r.cs|
  {
    && i < j && r.cs[i].token == r.cs[j].token && IsBaseline(r, i)
    && forall k | i < k < j && r.cs[k].token == r.cs[j].token :: !IsBaseline(r, k) && !Missed(r.Outage(), k)
  }

  lemma {:induction false} BaselineIsKept(r: Race, i: nat, n: nat, d: Token)
    requires i < n <= |r.cs| && d in r.registered && r.cs[i].token == d && IsBaseline(r, i)
    requires forall k | i < k < n && r.cs[k].token == d :: !IsBaseline(r, k) && !Missed(r.Outage(), k)
    ensures d !in WalkTo(r, n).pending && WalkTo(r, n).trackers[d].prev == Some(r.cs[i].at)
  {
    hide WalkTo, FateAt, OutageWindow, IsBaseline;
    TrackerMoves(r, n - 1, d);
    if i == n - 1 {
      BaselineIsNotMissed(r, i);
    } else {
      BaselineIsKept(r, i, n - 1, d);
    }
  }

  lemma BaselineIsNotMissed(r: Race, i: nat)
    requires i < |r.cs|
    ensures IsBaseline(r, i) ==> !Missed(r.Outage(), i) && r.cs[i].token in r.registered
    ensures FateAt(r, i) == Crossed(Laps.Rejected) ==> !IsBaseline(r, i) && !Missed(r.Outage(), i)
  {
  }

  lemma CrossedFrom(r: Race, j: nat)
    requires j < |r.cs| && !Missed(r.Outage(), j) && r.cs[j].token in r.registered
    ensures var w, c, min := WalkTo(r, j), r.cs[j], r.cfg.minLap;
      if c.token in w.pending || w.trackers[c.token].prev.None? then FateAt(r, j) == Crossed(Laps.StartMarker)
      else
        var ms := c.at - w.trackers[c.token].prev.value;
        if min > 0 && ms < min then FateAt(r, j) == Crossed(Laps.Rejected)
        else IsLap(r, j) && FateAt(r, j).outcome.ms == ms
  {
    hide OutageWindow, WalkTo;
  }

  lemma LapIsEmitted(r: Race, i: nat)
    requires i < |r.cs|
    ensures IsLap(r, i) ==>
      var o := FateAt(r, i).outcome;
      LapRecorded(r.cs[i].token, r.session, o.number, o.ms, r.cs[i].at) in EventsAt(r, i)
  {
    hide FateAt, OutageWindow;
    LapsAt(r, i);
    FateCases(r, i);
  }

  /** Main theorem: the filter is exact. Of the crossings that are neither missed nor held, the
      start markers are those with no baseline to be timed from; the bounces are those nearer
      than the minimum to theirs; every other one is a counted lap of that length. */
  lemma CountedExactly(r: Race, j: nat)
    requires j < |r.cs| && !Missed(r.Outage(), j) && r.cs[j].token in r.registered
    ensures FateAt(r, j) == Crossed(Laps.StartMarker) <==> forall i: nat :: !TimedFrom(r, i, j)
    ensures forall i: nat | TimedFrom(r, i, j) ::
      var ms := r.cs[j].at - r.cs[i].at;
      && (FateAt(r, j) == Crossed(Laps.Rejected) <==> r.cfg.minLap > 0 && ms < r.cfg.minLap)
      && (IsLap(r, j) <==> !(r.cfg.minLap > 0 && ms < r.cfg.minLap))
      && (IsLap(r, j) ==>
            && FateAt(r, j).outcome.ms == ms
            && LapRecorded(r.cs[j].token, r.session, FateAt(r, j).outcome.number, ms, r.cs[j].at) in EventsAt(r, j))
  {
    hide WalkTo, OutageWindow, FateAt, IsBaseline, EventsAt;
    var d := r.cs[j].token;
    LapIsEmitted(r, j);
    CrossedFrom(r, j);
    forall i: nat | TimedFrom(r, i, j)
      ensures d !in WalkTo(r, j).pending && WalkTo(r, j).trackers[d].prev == Some(r.cs[i].at)
    {
      BaselineIsKept(r, i, j, d);
    }
    if d !in WalkTo(r, j).pending && WalkTo(r, j).trackers[d].prev.Some? {
      var i := BaselineOf(r, j, d);
      forall k | i < k < j && r.cs[k].token == d ensures !IsBaseline(r, k) && !Missed(r.Outage(), k) {
        BaselineIsNotMissed(r, k);
      }
      assert TimedFrom(r, i, j);
    }
  }

  predicate NoScanner(events: seq<Event>) {
    forall i | 0 <= i < |events| :: !events[i].ScannerOffline? && !events[i].ScannerOnline?
  }

  lemma LapPartIsQuiet(r: Race, i: nat)
    requires i < |r.cs|
    ensures NoScanner(LapPart(r, i))
    ensures EventsTo(r, i + 1) == EventsTo(r, i) + EventsAt(r, i)
  {
    hide FateAt;
  }

  lemma EventsCases(r: Race, i: nat)
    requires i < |r.cs|
    ensures var w := r.Outage();
      && (Missed(w, i) && w.first < i ==> EventsAt(r, i) == [])
      && (w.active && i == w.first && 1 <= w.first < w.past ==>
            EventsAt(r, i) == [ScannerOffline(r.cs[w.first - 1].at, r.cs[w.first].at)])
      && (w.active && i == w.past ==> EventsAt(r, i) == [ScannerOnline(r.cs[i].at)] + LapPart(r, i))
      && (!Missed(w, i) && !(w.active && i == w.past) ==> EventsAt(r, i) == LapPart(r, i))
  {
    hide LapPart;
  }

  lemma {:induction false} NoScannerBefore(r: Race, n: nat)
    requires n <= |r.cs| && (r.Outage().active ==> n <= r.Outage().first)
    ensures NoScanner(EventsTo(r, n))
  {
    hide EventsAt, LapPart, OutageWindow;
    WindowLeavesBothSides(|r.cs|, r.cfg.outageLaps);
    if n > 0 {
      NoScannerBefore(r, n - 1);
      EventsCases(r, n - 1);
      LapPartIsQuiet(r, n - 1);
    }
  }

  lemma {:induction false} OnlyOfflineDuring(r: Race, n: nat)
    requires r.Outage().active && r.Outage().first < n <= r.Outage().past <= |r.cs|
    ensures var w := r.Outage();
      w.first >= 1 && EventsTo(r, n) == EventsTo(r, w.first) + [ScannerOffline(r.cs[w.first - 1].at, r.cs[w.first].at)]
  {
    hide EventsTo, EventsAt, OutageWindow;
    WindowLeavesBothSides(|r.cs|, r.cfg.outageLaps);
    EventsCases(r, n - 1);
    LapPartIsQuiet(r, n - 1);
    if n > r.Outage().first + 1 {
      OnlyOfflineDuring(r, n - 1);
    }
  }

  lemma {:induction false} OnlineOnceAfter(r: Race, n: nat) returns (after: seq<Event>)
    requires r.Outage().active && r.Outage().past < n <= |r.cs|
    ensures NoScanner(after)
    ensures EventsTo(r, n) == EventsTo(r, r.Outage().past) + [ScannerOnline(r.cs[r.Outage().past].at)] + after
  {
    hide EventsTo, EventsAt, LapPart, OutageWindow;
    var i, w := n - 1, r.Outage();
    EventsCases(r, i);
    LapPartIsQuiet(r, i);
    if i == w.past {
      after := LapPart(r, i);
    } else {
      after := OnlineOnceAfter(r, i);
      after := after + LapPart(r, i);
    }
  }

  /** A session has no scanner event, or exactly one offline followed at once by exactly
      one online: no lap lies between them. */
  lemma OneOutage(r: Race) returns (before: seq<Event>, after: seq<Event>)
    ensures NoScanner(before) && NoScanner(after)
    ensures var w := r.Outage();
      EventsTo(r, |r.cs|) ==
        if w.active then
          before + [ScannerOffline(r.cs[w.first - 1].at, r.cs[w.first].at), ScannerOnline(r.cs[w.past].at)] + after
        else before
  {
    hide EventsTo;
    WindowLeavesBothSides(|r.cs|, r.cfg.outageLaps);
    var w := r.Outage();
    if w.active {
      NoScannerBefore(r, w.first);
      OnlyOfflineDuring(r, w.past);
      after := OnlineOnceAfter(r, |r.cs|);
      before := EventsTo(r, w.first);
    } else {
      NoScannerBefore(r, |r.cs|);
      before, after := EventsTo(r, |r.cs|), [];
    }
  }

  // ----- Each driver is timed alone ---------------------------------------------------------------

  /** The driver's latest crossing before n was missed. */
  predicate MissedLast(r: Race, d: Token, n: nat)
    requires n <= |r.cs|
  {
    n > 0 && if r.cs[n - 1].token == d then Missed(r.Outage(), n - 1) else MissedLast(r, d, n - 1)
  }

  /** What the driver's own tracker sees. */
  function OpsTo(r: Race, d: Token, n: nat): seq<Laps.Op>
    requires n <= |r.cs|
  {
    if n == 0 then []
    else if r.cs[n - 1].token != d || Missed(r.Outage(), n - 1) then OpsTo(r, d, n - 1)
    else OpsTo(r, d, n - 1) + (if MissedLast(r, d, n - 1) then [Laps.Rebase] else []) + [Laps.CrossAt(r.cs[n - 1].at)]
  }

  /** The driver's laps among the events. */
  function LapsFor(events: seq<Event>, d: Token): seq<Laps.Outcome> {
    if events == [] then [] else
    var e := events[|events| - 1];
    LapsFor(events[..|events| - 1], d)
    + if e.LapRecorded? && e.master == d then [Laps.Counted(e.number, e.ms)] else []
  }

  lemma {:induction false} LapsForJoin(xs: seq<Event>, ys: seq<Event>, d: Token)
    ensures LapsFor(xs + ys, d) == LapsFor(xs, d) + LapsFor(ys, d)
  {
    if ys == [] {
      assert xs + ys == xs;
    } else {
      assert (xs + ys)[..|xs + ys| - 1] == xs + ys[..|ys| - 1];
      LapsForJoin(xs, ys[..|ys| - 1], d);
    }
  }

  lemma LapsForAt(r: Race, i: nat, d: Token)
    requires i < |r.cs|
    ensures LapsFor(EventsAt(r, i), d) ==
      if IsLap(r, i) && r.cs[i].token == d then [FateAt(r, i).outcome] else []
  {
    var es := EventsAt(r, i);
    assert LapsFor([], d) == [];
    if es != [] {
      assert es[..|es| - 1] == [] || (|es| == 2 && es[..1][..0] == []);
    }
  }

  lemma {:induction false} PendingIsMissedLast(r: Race, d: Token, n: nat)
    requires n <= |r.cs| && d in r.registered
    ensures d in WalkTo(r, n).pending <==> MissedLast(r, d, n)
  {
    if n > 0 {
      PendingIsMissedLast(r, d, n - 1);
    }
  }

  lemma TrackerSteps(min: int, ops: seq<Laps.Op>, rebase: bool, at: int)
    ensures var tr := Laps.After(min, Laps.FRESH, ops);
      var base := if rebase then tr.(prev := None) else tr;
      var next := ops + (if rebase then [Laps.Rebase] else []) + [Laps.CrossAt(at)];
      var (tr1, o) := Laps.Crossed(min, base, at);
      && Laps.After(min, Laps.FRESH, next) == tr1
      && Laps.Counts(min, Laps.FRESH, next) == Laps.Counts(min, Laps.FRESH, ops) + if o.Counted? then [o] else []
  {
    var mid := ops + if rebase then [Laps.Rebase] else [];
    if rebase {
      assert mid[..|ops|] == ops;
    } else {
      assert mid == ops;
    }
    var next := mid + [Laps.CrossAt(at)];
    assert next[..|mid|] == mid;
  }

  lemma NoOpsYet(r: Race, d: Token)
    ensures Laps.After(r.cfg.minLap, Laps.FRESH, []) == Laps.FRESH
    ensures Laps.Counts(r.cfg.minLap, Laps.FRESH, []) == LapsFor(EventsTo(r, 0), d)
  {
  }

  /** Interleaving never matters: a driver's laps are those of its own tracker run on its
      own crossings, with a rebase after each stretch the scanner missed. */
  lemma {:induction false} EachDriverIsTimedAlone(r: Race, d: Token, n: nat)
    requires n <= |r.cs| && d in r.registered
    ensures Laps.After(r.cfg.minLap, Laps.FRESH, OpsTo(r, d, n)) == WalkTo(r, n).trackers[d]
    ensures Laps.Counts(r.cfg.minLap, Laps.FRESH, OpsTo(r, d, n)) == LapsFor(EventsTo(r, n), d)
  {
    hide LapsFor, EventsTo, EventsAt, OutageWindow, Laps.After, Laps.Counts;
    if n == 0 {
      NoOpsYet(r, d);
    } else {
      var i := n - 1;
      EachDriverIsTimedAlone(r, d, i);
      Unfold(r, i);
      LapsForJoin(EventsTo(r, i), EventsAt(r, i), d);
      LapsForAt(r, i, d);
      if r.cs[i].token == d && !Missed(r.Outage(), i) {
        PendingIsMissedLast(r, d, i);
        TrackerSteps(r.cfg.minLap, OpsTo(r, d, i), MissedLast(r, d, i), r.cs[i].at);
      }
    }
  }

  /** A driver's laps over a whole session: numbers are 1..k with no gap across an outage, no
      lap beats the filter, and the driver's tracker would give the same laps without the
      bounces it was shown. */
  lemma SessionLapArithmetic(r: Race, d: Token, n: nat)
    requires n <= |r.cs| && d in r.registered
    ensures var laps := LapsFor(EventsTo(r, n), d);
      && (forall i | 0 <= i < |laps| :: laps[i].Counted? && laps[i].number == i + 1)
      && (r.cfg.minLap > 0 ==> forall i | 0 <= i < |laps| :: laps[i].ms >= r.cfg.minLap)
      && laps == Laps.Counts(r.cfg.minLap, Laps.FRESH, Laps.WithoutBounces(r.cfg.minLap, Laps.FRESH, OpsTo(r, d, n)))
  {
    EachDriverIsTimedAlone(r, d, n);
    Laps.LapsAreNumberedAndFiltered(r.cfg.minLap, Laps.FRESH, OpsTo(r, d, n));
    Laps.BouncesCanBeDeleted(r.cfg.minLap, Laps.FRESH, OpsTo(r, d, n));
  }

  // ----- The summary ------------------------------------------------------------------------------

  ghost predicate IsMin(laps: seq<Laps.Outcome>, best: int) {
    && (exists i :: 0 <= i < |laps| && laps[i].Counted? && laps[i].ms == best)
    && (forall i | 0 <= i < |laps| && laps[i].Counted? :: best <= laps[i].ms)
  }

  lemma {:induction false} TallyIsCountAndMin(r: Race, d: Token, n: nat)
    requires n <= |r.cs|
    ensures var laps, agg := LapsFor(EventsTo(r, n), d), TallyTo(r, n);
      && (d in agg <==> laps != [])
      && (d in agg ==> agg[d].count == |laps| && IsMin(laps, agg[d].best))
  {
    if n > 0 {
      var i := n - 1;
      TallyIsCountAndMin(r, d, i);
      Unfold(r, i);
      LapsForJoin(EventsTo(r, i), EventsAt(r, i), d);
      LapsForAt(r, i, d);
      if IsLap(r, i) && r.cs[i].token == d {
        var laps, agg, o := LapsFor(EventsTo(r, i), d), TallyTo(r, i), FateAt(r, i).outcome;
        MinGrows(laps, o);
        if d in agg {
          assert IsMin(laps + [o], if o.ms < agg[d].best then o.ms else agg[d].best);
        }
      } else {
        assert LapsFor(EventsTo(r, n), d) == LapsFor(EventsTo(r, i), d);
      }
    }
  }

  lemma MinGrows(laps: seq<Laps.Outcome>, o: Laps.Outcome)
    requires o.Counted?
    ensures laps == [] ==> IsMin(laps + [o], o.ms)
    ensures forall b | IsMin(laps, b) :: IsMin(laps + [o], if o.ms < b then o.ms else b)
  {
    var all := laps + [o];
    assert all[|laps|] == o;
    forall b | IsMin(laps, b) ensures IsMin(all, if o.ms < b then o.ms else b) {
      var i :| 0 <= i < |laps| && laps[i].Counted? && laps[i].ms == b;
      assert all[i] == laps[i];
    }
  }

  predicate DistinctDrivers(drivers: seq<Driver>) {
    forall i, j | 0 <= i < j < |drivers| :: drivers[i].master != drivers[j].master
  }

  lemma {:induction false} RowsAreTheTally(drivers: seq<Driver>, agg: map<Token, Agg>)
    requires DistinctDrivers(drivers)
    ensures var rows := SummaryRows(drivers, agg);
      && (forall row | row in rows ::
            && row.master in Masters(drivers) && row.master in agg
            && row == SummaryRow(row.master, agg[row.master].best, agg[row.master].count))
      && (forall d | d in Masters(drivers) && d in agg :: SummaryRow(d, agg[d].best, agg[d].count) in rows)
      && (forall i, j | 0 <= i < j < |rows| :: rows[i].master != rows[j].master)
  {
    if drivers != [] {
      var front, d := drivers[..|drivers| - 1], drivers[|drivers| - 1].master;
      RowsAreTheTally(front, agg);
      assert Masters(drivers) == Masters(front) + {d} by {
        forall x | x in Masters(drivers) ensures x in Masters(front) + {d} {
          var i :| 0 <= i < |drivers| && drivers[i].master == x;
          if i < |front| { assert front[i].master == x; }
        }
        forall x | x in Masters(front) ensures x in Masters(drivers) {
          var i :| 0 <= i < |front| && front[i].master == x;
          assert drivers[i].master == x;
        }
      }
      assert d !in Masters(front) by {
        forall i | 0 <= i < |front| ensures front[i].master != d {
          assert drivers[i] == front[i];
        }
      }
      var rows := SummaryRows(front, agg);
      forall i | 0 <= i < |rows| ensures rows[i].master != d {
        assert rows[i] in rows;
      }
    }
  }

  /** The rows follow the order of the drivers: row k is that of driver at[k]. */
  lemma {:induction false} SummaryFollowsTheDrivers(drivers: seq<Driver>, agg: map<Token, Agg>)
    returns (at: seq<nat>)
    ensures |at| == |SummaryRows(drivers, agg)|
    ensures forall k | 0 <= k < |at| ::
      at[k] < |drivers| && SummaryRows(drivers, agg)[k].master == drivers[at[k]].master
    ensures forall k, l | 0 <= k < l < |at| :: at[k] < at[l]
  {
    at := [];
    if drivers != [] {
      var n := |drivers| - 1;
      at := SummaryFollowsTheDrivers(drivers[..n], agg);
      if drivers[n].master in agg {
        at := at + [n];
      }
    }
  }

  /** The session's summary has exactly one row per driver with a lap, and it is the
      count and the minimum of that driver's emitted laps. */
  lemma SummaryIsCountAndMin(r: Race, drivers: seq<Driver>, d: Token)
    requires DistinctDrivers(drivers) && r.registered == Masters(drivers)
    ensures var rows := SummaryRows(drivers, TallyTo(r, |r.cs|));
      var laps := LapsFor(EventsTo(r, |r.cs|), d);
      && (forall i, j | 0 <= i < j < |rows| :: rows[i].master != rows[j].master)
      && (laps != [] ==> exists row :: row in rows && row.master == d)
      && (forall row | row in rows && row.master == d :: laps != [] && row.count == |laps| && IsMin(laps, row.best))
  {
    var agg := TallyTo(r, |r.cs|);
    TallyIsCountAndMin(r, d, |r.cs|);
    RowsAreTheTally(drivers, agg);
    if d in agg {
      LapsOnlyOfRegistered(r, d, |r.cs|);
      assert SummaryRow(d, agg[d].best, agg[d].count) in SummaryRows(drivers, agg);
    }
  }

  lemma {:induction false} LapsOnlyOfRegistered(r: Race, d: Token, n: nat)
    requires n <= |r.cs|
    ensures d in TallyTo(r, n) ==> d in r.registered
  {
    if n > 0 {
      LapsOnlyOfRegistered(r, d, n - 1);
    }
  }

  // ----- The stream is in time order ----------------------------------------------------------------

  predicate InTimeOrder(cs: seq<Crossing>) {
    forall i, j | 0 <= i < j < |cs| :: cs[i].at <= cs[j].at
  }

  lemma {:induction false} InsertKeepsTimeOrder(cs: seq<Crossing>, c: Crossing)
    requires InTimeOrder(cs)
    ensures InTimeOrder(InsertByTime(cs, c))
  {
    if cs != [] && cs[|cs| - 1].at > c.at {
      var front, last := cs[..|cs| - 1], cs[|cs| - 1];
      InsertKeepsTimeOrder(front, c);
      var rest := InsertByTime(front, c);
      forall i | 0 <= i < |rest| ensures rest[i].at <= last.at {
        assert rest[i] in multiset(rest);
        if rest[i] != c {
          assert rest[i] in front;
          var k :| 0 <= k < |front| && front[k] == rest[i];
          assert cs[k] == rest[i];
        }
      }
    }
  }

  lemma {:induction false} SortedStreamIsInTimeOrder(cs: seq<Crossing>)
    ensures InTimeOrder(SortByTime(cs))
  {
    if cs != [] {
      SortedStreamIsInTimeOrder(cs[..|cs| - 1]);
      InsertKeepsTimeOrder(SortByTime(cs[..|cs| - 1]), cs[|cs| - 1]);
    }
  }

  /** The crossings of one instant, in order. */
  function AtInstant(cs: seq<Crossing>, t: int): seq<Crossing> {
    if cs == [] then [] else
    AtInstant(cs[..|cs| - 1], t) + if cs[|cs| - 1].at == t then [cs[|cs| - 1]] else []
  }

  lemma AtInstantAppend(cs: seq<Crossing>, c: Crossing, t: int)
    ensures AtInstant(cs + [c], t) == AtInstant(cs, t) + if c.at == t then [c] else []
  {
    assert (cs + [c])[..|cs|] == cs;
  }

  lemma {:induction false} InsertIsStable(cs: seq<Crossing>, c: Crossing, t: int)
    ensures AtInstant(InsertByTime(cs, c), t) == AtInstant(cs, t) + if c.at == t then [c] else []
  {
    hide AtInstant;
    AtInstantAppend(cs, c, t);
    if cs != [] && cs[|cs| - 1].at > c.at {
      var front, last := cs[..|cs| - 1], cs[|cs| - 1];
      InsertIsStable(front, c, t);
      AtInstantAppend(front, last, t);
      AtInstantAppend(InsertByTime(front, c), last, t);
      assert cs == front + [last];
    }
  }

  /** The sort is stable: crossings of one instant keep their order. */
  lemma {:induction false} SortIsStable(cs: seq<Crossing>, t: int)
    ensures AtInstant(SortByTime(cs), t) == AtInstant(cs, t)
  {
    if cs != [] {
      SortIsStable(cs[..|cs| - 1], t);
      InsertIsStable(SortByTime(cs[..|cs| - 1]), cs[|cs| - 1], t);
    }
  }
}
