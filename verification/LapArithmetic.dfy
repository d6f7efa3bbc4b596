/** Lap arithmetic over whole sessions: what may be deleted from a stream without changing
    the session, and what a driver's laps add up to across an outage. */
module LapArithmetic {
  import opened Base
  import Laps
  import opened Capture

  // ----- Deleting the bounces of a session ----------------------------------------------------

  predicate IsBounce(r: Race, i: nat)
    requires i < |r.cs|
  {
    FateAt(r, i) == Crossed(Laps.Rejected)
  }

  /** The first n crossings without their bounces. */
  function Kept(r: Race, n: nat): seq<Crossing>
    requires n <= |r.cs|
  {
    if n == 0 then [] else Kept(r, n - 1) + if IsBounce(r, n - 1) then [] else [r.cs[n - 1]]
  }

  /** The session of the kept crossings. */
  function Cleaned(r: Race): Race { r.(cs := Kept(r, |r.cs|)) }

  /** Where a kept crossing stands in the cleaned stream. */
  function Pos(r: Race, n: nat): nat
    requires n <= |r.cs|
  {
    |Kept(r, n)|
  }

  lemma {:induction false} KeptGrows(r: Race, i: nat, j: nat)
    requires i <= j <= |r.cs|
    ensures Kept(r, i) <= Kept(r, j)
  {
    hide FateAt;
    if i < j {
      KeptGrows(r, i, j - 1);
    }
  }

  lemma KeptAt(r: Race, i: nat)
    requires i < |r.cs|
    ensures Pos(r, i + 1) == Pos(r, i) + if IsBounce(r, i) then 0 else 1
    ensures !IsBounce(r, i) ==> Pos(r, i) < |Cleaned(r).cs| && Cleaned(r).cs[Pos(r, i)] == r.cs[i]
  {
    KeptGrows(r, i + 1, |r.cs|);
  }

  /** A kept crossing comes before exactly those positions its successors have. */
  lemma PosOrder(r: Race, i: nat, j: nat)
    requires i < |r.cs| && j <= |r.cs| && !IsBounce(r, i)
    ensures i < j <==> Pos(r, i) < Pos(r, j)
  {
    hide FateAt, Kept;
    KeptAt(r, i);
    if i < j {
      KeptGrows(r, i + 1, j);
    } else {
      KeptGrows(r, j, i);
    }
  }

  lemma {:induction false} Origin(r: Race, p: nat, n: nat) returns (i: nat)
    requires n <= |r.cs| && p < Pos(r, n)
    ensures i < n && !IsBounce(r, i) && Pos(r, i) == p
  {
    if p < Pos(r, n - 1) {
      i := Origin(r, p, n - 1);
    } else {
      i := n - 1;
    }
  }

  /** The outage window, placed by index, selects the same crossings of the cleaned stream. */
  predicate Aligned(r: Race) {
    var w, v := r.Outage(), Cleaned(r).Outage();
    WindowLeavesBothSides(|r.cs|, r.cfg.outageLaps);
    w.active == v.active && (w.active ==> v.first == Pos(r, w.first) && v.past == Pos(r, w.past))
  }

  /** The last good crossing before the gap and the first one after it have the same instants. */
  predicate SameGap(r: Race) {
    var w, v := r.Outage(), Cleaned(r).Outage();
    WindowLeavesBothSides(|r.cs|, r.cfg.outageLaps);
    WindowLeavesBothSides(|Cleaned(r).cs|, r.cfg.outageLaps);
    w.active && v.active ==>
      Cleaned(r).cs[v.first - 1].at == r.cs[w.first - 1].at && Cleaned(r).cs[v.past].at == r.cs[w.past].at
  }

  /** No surviving crossing changes its fate. */
  ghost predicate SameFates(r: Race) {
    forall i | 0 <= i < |r.cs| && !IsBounce(r, i) :: SameFate(r, i)
  }

  predicate SameFate(r: Race, i: nat)
    requires i < |r.cs| && !IsBounce(r, i)
  {
    KeptAt(r, i);
    FateAt(Cleaned(r), Pos(r, i)) == FateAt(r, i)
  }

  lemma AlignedMisses(r: Race, i: nat)
    requires Aligned(r) && i < |r.cs| && !IsBounce(r, i)
    ensures Missed(Cleaned(r).Outage(), Pos(r, i)) <==> Missed(r.Outage(), i)
  {
    hide OutageWindow, Kept, FateAt;
    var w := r.Outage();
    WindowLeavesBothSides(|r.cs|, r.cfg.outageLaps);
    if w.active {
      PosOrder(r, i, w.first);
      PosOrder(r, i, w.past);
    }
  }

  lemma BounceMovesNothing(r: Race, i: nat)
    requires i < |r.cs| && IsBounce(r, i)
    ensures WalkTo(r, i + 1) == WalkTo(r, i) && !Missed(r.Outage(), i) && !IsLap(r, i) && r.cs[i].token in r.registered
  {
    var w, c := WalkTo(r, i), r.cs[i];
    Unfold(r, i);
    assert Baseline(w, c.token) == w.trackers[c.token] && c.token !in w.pending;
    assert w.trackers[c.token := w.trackers[c.token]] == w.trackers;
    assert w.pending - {c.token} == w.pending;
  }

  /** Two walks at crossings that are alike, from the same state, do the same. */
  lemma SameStep(r: Race, i: nat, k: Race, j: nat)
    requires i < |r.cs| && j < |k.cs| && r.cs[i] == k.cs[j] && WalkTo(r, i) == WalkTo(k, j)
    requires k == r.(cs := k.cs) && (Missed(r.Outage(), i) <==> Missed(k.Outage(), j))
    ensures FateAt(r, i) == FateAt(k, j) && WalkTo(r, i + 1) == WalkTo(k, j + 1)
  {
    hide OutageWindow;
    Unfold(r, i);
    Unfold(k, j);
  }

  lemma {:induction false} WalksAgree(r: Race, n: nat)
    requires Aligned(r) && n <= |r.cs|
    ensures Pos(r, n) <= |Cleaned(r).cs| && WalkTo(Cleaned(r), Pos(r, n)) == WalkTo(r, n)
  {
    hide WalkTo, FateAt, OutageWindow, Kept;
    KeptGrows(r, n, |r.cs|);
    if n == 0 {
      NothingKept(r);
      NothingYet(r);
      NothingYet(Cleaned(r));
    } else {
      WalksAgree(r, n - 1);
      KeptAt(r, n - 1);
      if IsBounce(r, n - 1) {
        BounceMovesNothing(r, n - 1);
      } else {
        AlignedMisses(r, n - 1);
        SameStep(r, n - 1, Cleaned(r), Pos(r, n - 1));
      }
    }
  }

  lemma NothingKept(r: Race)
    ensures Kept(r, 0) == []
  {
  }

  lemma AlignedKeepsFates(r: Race)
    requires Aligned(r)
    ensures SameFates(r)
  {
    hide WalkTo, FateAt, OutageWindow, Kept, Aligned;
    forall i | 0 <= i < |r.cs| && !IsBounce(r, i) ensures SameFate(r, i) {
      WalksAgree(r, i);
      KeptAt(r, i);
      AlignedMisses(r, i);
      SameStep(r, i, Cleaned(r), Pos(r, i));
    }
  }

  /** Kept crossings are missed alike when no fate changes. */
  lemma FatesShowTheWindow(r: Race, i: nat)
    requires SameFates(r) && i < |r.cs| && !IsBounce(r, i)
    ensures Missed(Cleaned(r).Outage(), Pos(r, i)) <==> Missed(r.Outage(), i)
  {
    hide WalkTo, FateAt, OutageWindow, Kept;
    KeptAt(r, i);
    assert SameFate(r, i);
    FateCases(r, i);
    FateCases(Cleaned(r), Pos(r, i));
  }

  lemma MissedIsKept(r: Race, i: nat)
    requires i < |r.cs| && Missed(r.Outage(), i)
    ensures !IsBounce(r, i)
  {
    FateCases(r, i);
  }

  lemma FatesKeptMeansAligned(r: Race)
    requires SameFates(r)
    ensures Aligned(r)
  {
    hide WalkTo, FateAt, OutageWindow, Kept, SameFates;
    var k, n := Cleaned(r), |r.cs|;
    var w, v := r.Outage(), k.Outage();
    WindowLeavesBothSides(|r.cs|, r.cfg.outageLaps);
    WindowLeavesBothSides(|k.cs|, r.cfg.outageLaps);
    if w.active {
      MissedIsKept(r, w.first);
      FatesShowTheWindow(r, w.first);
    }
    if v.active {
      var i := Origin(r, v.first, n);
      FatesShowTheWindow(r, i);
      MissedIsKept(r, w.first);
      MissedIsKept(r, w.past - 1);
      FatesShowTheWindow(r, w.first);
      FatesShowTheWindow(r, w.past - 1);
      PosOrder(r, w.first, i);
      KeptAt(r, w.past - 1);
      // One past the gap: the next kept crossing is not missed in either stream.
      var j := Origin(r, v.past - 1, n);
      FatesShowTheWindow(r, j);
      PosOrder(r, j, w.past);
    }
  }

  // ----- What the session shows --------------------------------------------------------------

  /** When the window selects the same crossings, laps, held scans, summary and end agree. */
  lemma {:induction false} OutputsAgree(r: Race, n: nat)
    requires Aligned(r) && n <= |r.cs|
    ensures Pos(r, n) <= |Cleaned(r).cs|
    ensures var k, p := Cleaned(r), Pos(r, n);
      && HeldTo(k, p) == HeldTo(r, n) && TallyTo(k, p) == TallyTo(r, n) && LastAt(k, p) == LastAt(r, n)
      && LapsIn(EventsTo(k, p)) == LapsIn(EventsTo(r, n))
  {
    hide WalkTo, FateAt, OutageWindow, Kept, Aligned, HeldTo, TallyTo, LastAt, LapsIn, EventsTo, Tally;
    var k := Cleaned(r);
    KeptGrows(r, n, |r.cs|);
    if n == 0 {
      NothingKept(r);
      NothingYet(r);
      NothingYet(k);
    } else {
      var i := n - 1;
      OutputsAgree(r, i);
      KeptAt(r, i);
      Unfold(r, i);
      LapsGrow(r, i);
      if IsBounce(r, i) {
        BounceMovesNothing(r, i);
      } else {
        AlignedKeepsFates(r);
        assert SameFate(r, i);
        Unfold(k, Pos(r, i));
        LapsGrow(k, Pos(r, i));
      }
    }
  }

  /** The online event of a gap whose first live crossing is a bounce is still to come. */
  function Owed(r: Race, n: nat): seq<Event>
    requires n <= |r.cs|
  {
    var w := r.Outage();
    WindowLeavesBothSides(|r.cs|, r.cfg.outageLaps);
    if w.active && w.past < n && Pos(r, n) == Pos(r, w.past) then [ScannerOnline(r.cs[w.past].at)] else []
  }

  lemma BounceEvents(r: Race, i: nat)
    requires Aligned(r) && i < |r.cs| && IsBounce(r, i)
    ensures Owed(r, i) + EventsAt(r, i) == Owed(r, i + 1)
  {
    hide WalkTo, FateAt, OutageWindow, Kept;
    var w := r.Outage();
    WindowLeavesBothSides(|r.cs|, r.cfg.outageLaps);
    BounceMovesNothing(r, i);
    EventsCases(r, i);
    KeptAt(r, i);
    assert LapPart(r, i) == [];
    if w.active && w.past <= i {
      KeptGrows(r, w.past, i);
    }
  }

  lemma KeptEvents(r: Race, i: nat)
    requires Aligned(r) && SameGap(r) && i < |r.cs| && !IsBounce(r, i)
    ensures Pos(r, i) < |Cleaned(r).cs|
    ensures Owed(r, i) + EventsAt(r, i) == EventsAt(Cleaned(r), Pos(r, i)) && Owed(r, i + 1) == []
  {
    hide WalkTo, FateAt, OutageWindow, Kept;
    var k, p := Cleaned(r), Pos(r, i);
    var w, v := r.Outage(), k.Outage();
    WindowLeavesBothSides(|r.cs|, r.cfg.outageLaps);
    WindowLeavesBothSides(|k.cs|, r.cfg.outageLaps);
    KeptAt(r, i);
    AlignedKeepsFates(r);
    assert SameFate(r, i);
    AlignedMisses(r, i);
    SameLapPart(r, i, k, p);
    EventsCases(r, i);
    EventsCases(k, p);
    if w.active {
      PosOrder(r, i, w.first);
      PosOrder(r, i, w.past);
      KeptGrows(r, w.first, w.past);
      if w.past <= i {
        KeptGrows(r, w.past, i);
      } else if w.first <= i {
        PosOrder(r, i, w.first);
      }
      MissedIsKept(r, w.first);
      PosOrder(r, w.first, i);
      KeptAt(r, w.first);
    }
  }

  lemma SameLapPart(r: Race, i: nat, k: Race, j: nat)
    requires i < |r.cs| && j < |k.cs| && r.cs[i] == k.cs[j] && r.session == k.session && FateAt(r, i) == FateAt(k, j)
    ensures LapPart(r, i) == LapPart(k, j)
  {
    hide FateAt;
  }

  lemma {:induction false} EventsAgree(r: Race, n: nat)
    requires Aligned(r) && SameGap(r) && n <= |r.cs|
    ensures Pos(r, n) <= |Cleaned(r).cs|
    ensures EventsTo(r, n) == EventsTo(Cleaned(r), Pos(r, n)) + Owed(r, n)
  {
    hide WalkTo, FateAt, OutageWindow, Kept, Aligned, SameGap, EventsTo, EventsAt;
    var k := Cleaned(r);
    KeptGrows(r, n, |r.cs|);
    WindowLeavesBothSides(|r.cs|, r.cfg.outageLaps);
    if n == 0 {
      NothingKept(r);
      NothingYet(r);
      NothingYet(k);
    } else {
      var i := n - 1;
      EventsAgree(r, i);
      KeptAt(r, i);
      LapPartIsQuiet(r, i);
      if IsBounce(r, i) {
        BounceEvents(r, i);
      } else {
        KeptEvents(r, i);
        LapPartIsQuiet(k, Pos(r, i));
      }
    }
  }

  /** A stream with one outage shows the instants of its gap. */
  lemma GapIsShown(events: seq<Event>, before: seq<Event>, x: Event, y: Event, after: seq<Event>,
                   before': seq<Event>, x': Event, y': Event, after': seq<Event>)
    requires NoScanner(before) && NoScanner(before') && x.ScannerOffline? && x'.ScannerOffline?
    requires events == before + [x, y] + after && events == before' + [x', y'] + after'
    ensures x == x' && y == y'
  {
    hide NoScanner;
    assert before + [x, y] + after == before + ([x, y] + after);
    assert before' + [x', y'] + after' == before' + ([x', y'] + after');
    QuietAt(before, [x, y] + after, |before'|);
    QuietAt(before', [x', y'] + after', |before|);
    assert events[|before|] == x && events[|before'|] == x';
    assert events[|before| + 1] == y && events[|before'| + 1] == y';
  }

  lemma QuietAt(quiet: seq<Event>, rest: seq<Event>, i: nat)
    requires NoScanner(quiet) && i < |quiet + rest|
    ensures i < |quiet| ==> !(quiet + rest)[i].ScannerOffline?
  {
  }

  lemma EqualEventsShowTheGap(r: Race)
    requires Aligned(r) && EventsTo(Cleaned(r), |Cleaned(r).cs|) == EventsTo(r, |r.cs|)
    ensures SameGap(r)
  {
    hide EventsTo, OutageWindow, Kept, NoScanner;
    var k := Cleaned(r);
    var w, v := r.Outage(), k.Outage();
    WindowLeavesBothSides(|r.cs|, r.cfg.outageLaps);
    WindowLeavesBothSides(|k.cs|, r.cfg.outageLaps);
    if w.active {
      var before, after := OneOutage(r);
      var before', after' := OneOutage(k);
      GapIsShown(EventsTo(r, |r.cs|),
                 before, ScannerOffline(r.cs[w.first - 1].at, r.cs[w.first].at), ScannerOnline(r.cs[w.past].at), after,
                 before', ScannerOffline(k.cs[v.first - 1].at, k.cs[v.first].at), ScannerOnline(k.cs[v.past].at),
                 after');
    }
  }

  /** Main theorem: deleting every bounce from a session's stream changes no fate and no
      event exactly when the window still selects the same crossings and the gap is still
      bounded by crossings of the same instants. Held scans, summary and end agree as soon
      as the window does. */
  lemma BounceDeletionIsExact(r: Race)
    ensures SameFates(r) && EventsTo(Cleaned(r), |Cleaned(r).cs|) == EventsTo(r, |r.cs|) <==> Aligned(r) && SameGap(r)
    ensures SameFates(r) <==> Aligned(r)
    ensures Aligned(r) ==>
      var k := Cleaned(r);
      && HeldTo(k, |k.cs|) == HeldTo(r, |r.cs|) && TallyTo(k, |k.cs|) == TallyTo(r, |r.cs|)
      && LastAt(k, |k.cs|) == LastAt(r, |r.cs|)
      && LapsIn(EventsTo(k, |k.cs|)) == LapsIn(EventsTo(r, |r.cs|))
  {
    hide WalkTo, FateAt, OutageWindow, Kept, Aligned, SameGap, SameFates, EventsTo, HeldTo, TallyTo, LastAt, LapsIn;
    if SameFates(r) {
      FatesKeptMeansAligned(r);
    }
    if Aligned(r) {
      AlignedKeepsFates(r);
      OutputsAgree(r, |r.cs|);
      if SameGap(r) {
        EventsAgree(r, |r.cs|);
        NothingOwed(r);
      }
      if EventsTo(Cleaned(r), |Cleaned(r).cs|) == EventsTo(r, |r.cs|) {
        EqualEventsShowTheGap(r);
      }
    }
  }

  lemma NothingOwed(r: Race)
    requires Aligned(r)
    ensures Owed(r, |r.cs|) == []
  {
    hide OutageWindow, Kept;
    WindowLeavesBothSides(|r.cs|, r.cfg.outageLaps);
    WindowLeavesBothSides(|Cleaned(r).cs|, r.cfg.outageLaps);
  }

  /** Without an outage the whole session is unchanged. */
  lemma WithoutAnOutage(r: Race, drivers: seq<Driver>)
    requires r.cfg.outageLaps <= 0 || |r.cs| <= 2
    ensures Session(Cleaned(r), drivers) == Session(r, drivers)
    ensures HeldTo(Cleaned(r), |Cleaned(r).cs|) == HeldTo(r, |r.cs|)
  {
    hide EventsTo, OutageWindow, Kept, TallyTo, LastAt, HeldTo, SummaryRows;
    WindowLeavesBothSides(|r.cs|, r.cfg.outageLaps);
    WindowLeavesBothSides(|Cleaned(r).cs|, r.cfg.outageLaps);
    KeptIsShorter(r, |r.cs|);
    assert Aligned(r) && SameGap(r);
    BounceDeletionIsExact(r);
  }

  lemma {:induction false} KeptIsShorter(r: Race, n: nat)
    requires n <= |r.cs|
    ensures |Kept(r, n)| <= n
  {
    hide FateAt;
    if n > 0 {
      KeptIsShorter(r, n - 1);
    }
  }

  // ----- At the generator's door ---------------------------------------------------------------

  lemma LastStays(front: seq<Crossing>, last: Crossing)
    requires InTimeOrder(front + [last])
    ensures InsertByTime(front, last) == front + [last] && InTimeOrder(front)
  {
    var cs := front + [last];
    if front != [] {
      assert cs[|front| - 1].at <= cs[|front|].at;
    }
    forall i, j | 0 <= i < j < |front| ensures front[i].at <= front[j].at {
      assert cs[i].at <= cs[j].at;
    }
  }

  lemma {:induction false} SortedIsSorted(cs: seq<Crossing>)
    requires InTimeOrder(cs)
    ensures SortByTime(cs) == cs
  {
    hide InsertByTime;
    if cs != [] {
      var front, last := cs[..|cs| - 1], cs[|cs| - 1];
      assert cs == front + [last];
      LastStays(front, last);
      SortedIsSorted(front);
    }
  }

  lemma {:induction false} KeptInTimeOrder(r: Race, n: nat)
    requires n <= |r.cs| && InTimeOrder(r.cs)
    ensures InTimeOrder(Kept(r, n)) && (n > 0 ==> forall i | 0 <= i < Pos(r, n) :: Kept(r, n)[i].at <= r.cs[n - 1].at)
  {
    hide FateAt;
    if n > 1 {
      KeptInTimeOrder(r, n - 1);
      assert r.cs[n - 2].at <= r.cs[n - 1].at;
    }
  }

  /** Handing the generator only the kept crossings gives the cleaned session. */
  lemma GeneratorOfKept(cfg: Config, session: SessionId, base: int, drivers: seq<Driver>, crossings: seq<Crossing>)
    ensures var r := RaceOf(cfg, session, base, drivers, crossings);
      RaceOf(cfg, session, base, drivers, Cleaned(r).cs) == Cleaned(r)
  {
    hide Kept, SortByTime;
    var r := RaceOf(cfg, session, base, drivers, crossings);
    SortedStreamIsInTimeOrder(crossings);
    KeptInTimeOrder(r, |r.cs|);
    SortedIsSorted(Cleaned(r).cs);
  }

  /** A session the code generates in which deleting a bounce moves the window, so that a
      crossing that was a lap is dropped and the events differ. */
  const MOVED := Race(Config(10, 1), "sim", 0, {"A"}, [A(0), A(100), A(200), A(300), A(301), A(400)])

  function A(at: int): Crossing { Crossing("A", false, at) }

  function WalkOf(prev: int, count: nat, pending: set<Token>): Walk {
    Walk(map["A" := Laps.Tracker(Some(prev), count)], pending)
  }

  lemma MovedStart()
    ensures MOVED.Outage() == Window(true, 2, 3)
    ensures WalkTo(MOVED, 1) == WalkOf(0, 0, {}) && FateAt(MOVED, 0) == Crossed(Laps.StartMarker)
  {
    hide WalkTo, EventsTo, HeldTo, TallyTo, LastAt;
    NothingYet(MOVED);
    Branches(MOVED, 0);
    var w := WalkTo(MOVED, 0);
    assert Baseline(w, "A") == Laps.FRESH;
    assert w.trackers["A" := Laps.Tracker(Some(0), 0)] == map["A" := Laps.Tracker(Some(0), 0)];
  }

  /** One live crossing of the only driver. */
  lemma MovedStep(i: nat, prev: int, count: nat, pending: set<Token>)
    requires i < 6 && i != 2 && WalkTo(MOVED, i) == WalkOf(prev, count, pending) && MOVED.Outage() == Window(true, 2, 3)
    ensures var base := Laps.Tracker(if "A" in pending then None else Some(prev), count);
      var (tr, o) := Laps.Crossed(10, base, MOVED.cs[i].at);
      FateAt(MOVED, i) == Crossed(o) && WalkTo(MOVED, i + 1) == Walk(map["A" := tr], pending - {"A"})
  {
    hide WalkTo, EventsTo, HeldTo, TallyTo, LastAt, OutageWindow, Laps.Crossed;
    Branches(MOVED, i);
    assert MOVED.cs[i].token == "A";
  }

  lemma MovedFates()
    ensures FateAt(MOVED, 0) == Crossed(Laps.StartMarker)
    ensures FateAt(MOVED, 1) == Crossed(Laps.Counted(1, 100))
    ensures FateAt(MOVED, 2) == Dropped
    ensures FateAt(MOVED, 3) == Crossed(Laps.StartMarker)
    ensures FateAt(MOVED, 4) == Crossed(Laps.Rejected)
    ensures FateAt(MOVED, 5) == Crossed(Laps.Counted(2, 100))
  {
    hide WalkTo, FateAt, EventsTo, HeldTo, TallyTo, LastAt, OutageWindow;
    MovedStart();
    MovedStep(1, 0, 0, {});
    assert WalkTo(MOVED, 2) == WalkOf(100, 1, {});
    Branches(MOVED, 2);
    FateCases(MOVED, 2);
    assert WalkTo(MOVED, 3) == WalkOf(100, 1, {"A"});
    MovedStep(3, 100, 1, {"A"});
    assert WalkTo(MOVED, 4) == WalkOf(300, 1, {});
    MovedStep(4, 300, 1, {});
    assert WalkTo(MOVED, 5) == WalkOf(300, 1, {});
    MovedStep(5, 300, 1, {});
  }

  lemma DeletionMovesTheWindow()
    ensures RaceOf(MOVED.cfg, MOVED.session, MOVED.base, [Driver("A", None)], MOVED.cs) == MOVED
    ensures IsBounce(MOVED, 4) && IsLap(MOVED, 1) && Pos(MOVED, 1) == 1
    ensures Cleaned(MOVED).cs == [A(0), A(100), A(200), A(300), A(400)]
    ensures FateAt(Cleaned(MOVED), 1).Dropped?
    ensures EventsTo(Cleaned(MOVED), 5) != EventsTo(MOVED, 6)
  {
    hide WalkTo, FateAt, EventsTo, RaceOf, Kept;
    MovedStart();
    MovedFates();
    MovedKept();
    MovedIsGenerated();
    var k := Cleaned(MOVED);
    assert k.Outage() == Window(true, 1, 2);
    FateCases(k, 1);
    var before, after := OneOutage(MOVED);
    var before', after' := OneOutage(k);
    DifferentGaps(EventsTo(MOVED, 6), before, after, EventsTo(k, 5), before', after');
  }

  lemma MovedIsGenerated()
    ensures RaceOf(MOVED.cfg, MOVED.session, MOVED.base, [Driver("A", None)], MOVED.cs) == MOVED
  {
    hide SortByTime;
    SortedIsSorted(MOVED.cs);
    var drivers := [Driver("A", None)];
    assert drivers[0].master == "A";
    assert Masters(drivers) == {"A"};
  }

  lemma MovedKept()
    ensures Pos(MOVED, 1) == 1 && Cleaned(MOVED).cs == [A(0), A(100), A(200), A(300), A(400)]
  {
    hide WalkTo, FateAt;
    MovedFates();
    assert Kept(MOVED, 0) == [];
    assert Kept(MOVED, 1) == [A(0)];
    assert Kept(MOVED, 2) == [A(0), A(100)];
    assert Kept(MOVED, 3) == [A(0), A(100), A(200)];
    assert Kept(MOVED, 4) == [A(0), A(100), A(200), A(300)];
    assert Kept(MOVED, 5) == [A(0), A(100), A(200), A(300)];
  }

  lemma DifferentGaps(xs: seq<Event>, before: seq<Event>, after: seq<Event>,
                      ys: seq<Event>, before': seq<Event>, after': seq<Event>)
    requires NoScanner(before) && NoScanner(before')
    requires xs == before + [ScannerOffline(100, 200), ScannerOnline(300)] + after
    requires ys == before' + [ScannerOffline(0, 100), ScannerOnline(200)] + after'
    ensures xs != ys
  {
    if xs == ys {
      GapIsShown(xs, before, ScannerOffline(100, 200), ScannerOnline(300), after,
                 before', ScannerOffline(0, 100), ScannerOnline(200), after');
    }
  }

  // ----- What a driver's laps add up to -----------------------------------------------------------

  /** Main theorem: over a whole session, outage included, a driver's laps are its segments'
      laps one after another, there are at most two segments, each totals its last valid
      crossing minus its first, and so do the laps together. */
  lemma SessionTelescopes(r: Race, d: Token)
    requires d in r.registered
    ensures var min, segs, laps := r.cfg.minLap, Laps.Segments(OpsTo(r, d, |r.cs|)), LapsFor(EventsTo(r, |r.cs|), d);
      && laps == Laps.SegmentLaps(min, 0, segs)
      && (forall i | 0 <= i < |laps| :: laps[i].Counted?)
      && Laps.Total(laps) == Laps.Spans(min, 0, segs)
      && (forall k | 0 <= k < |segs| :: Laps.AllCrossings(segs[k]) && AddsUp(min, segs, k))
      && 1 <= |segs| <= 2
  {
    hide LapsFor, EventsTo, OpsTo, Laps.Counts, Laps.After, Laps.SegmentLaps, Laps.Spans, Laps.Total, Laps.CutOf;
    var ops := OpsTo(r, d, |r.cs|);
    EachDriverIsTimedAlone(r, d, |r.cs|);
    Laps.LapsAreTheSegmentsLaps(r.cfg.minLap, 0, ops);
    Laps.SegmentsAreCrossings(ops);
    Laps.SegmentsTelescope(r.cfg.minLap, 0, Laps.Segments(ops));
    OneRebaseAtMost(r, d, |r.cs|);
    var segs := Laps.Segments(ops);
    forall k | 0 <= k < |segs| ensures AddsUp(r.cfg.minLap, segs, k) {
      Laps.SpanIsTheTotal(r.cfg.minLap, Laps.Tracker(None, |Laps.SegmentLaps(r.cfg.minLap, 0, segs[..k])|), segs[k]);
    }
  }

  /** Segment k's own laps total its last valid crossing minus its first. */
  ghost predicate AddsUp(min: int, segs: seq<seq<Laps.Op>>, k: nat)
    requires k < |segs|
  {
    var seg, tr := segs[k], Laps.Tracker(None, |Laps.SegmentLaps(min, 0, segs[..k])|);
    seg != [] ==>
      && seg[0].CrossAt?
      && (exists i | 0 <= i < |seg| :: seg[i].CrossAt? && Laps.After(min, tr, seg).prev == Some(seg[i].at))
      && Laps.Total(Laps.Counts(min, tr, seg)) == Laps.After(min, tr, seg).prev.value - seg[0].at
  }

  /** Only the outage parts a driver's laps, and it does so once. */
  lemma {:induction false} OneRebaseAtMost(r: Race, d: Token, n: nat)
    requires n <= |r.cs|
    ensures var early, w := Laps.CutOf(OpsTo(r, d, n)).early, r.Outage();
      && |early| <= 1
      && (!w.active ==> |early| == 0 && !MissedLast(r, d, n))
      && (w.active && n <= w.past ==> |early| == 0)
      && (w.active && n <= w.first ==> !MissedLast(r, d, n))
      && (MissedLast(r, d, n) ==> |early| == 0)
  {
    hide OutageWindow;
    WindowLeavesBothSides(|r.cs|, r.cfg.outageLaps);
    if n > 0 {
      OneRebaseAtMost(r, d, n - 1);
      if r.cs[n - 1].token == d && !Missed(r.Outage(), n - 1) {
        CutOfStep(OpsTo(r, d, n - 1), MissedLast(r, d, n - 1), r.cs[n - 1].at);
      }
    }
  }

  lemma CutOfStep(ops: seq<Laps.Op>, rebase: bool, at: int)
    ensures |Laps.CutOf(ops + (if rebase then [Laps.Rebase] else []) + [Laps.CrossAt(at)]).early|
      == |Laps.CutOf(ops).early| + if rebase then 1 else 0
  {
    var mid := ops + if rebase then [Laps.Rebase] else [];
    var all := mid + [Laps.CrossAt(at)];
    assert all[..|all| - 1] == mid;
    if rebase {
      assert mid[..|mid| - 1] == ops;
    } else {
      assert mid == ops;
    }
  }

  // ----- No lap is negative ------------------------------------------------------------------------

  /** Crossings in time order, none later than `last`. */
  predicate Rising(ops: seq<Laps.Op>, last: int) {
    && (forall i, j | 0 <= i < j < |ops| && ops[i].CrossAt? && ops[j].CrossAt? :: ops[i].at <= ops[j].at)
    && (forall i | 0 <= i < |ops| && ops[i].CrossAt? :: ops[i].at <= last)
  }

  lemma {:induction false} OpsInOrder(r: Race, d: Token, n: nat, last: int)
    requires n <= |r.cs| && InTimeOrder(r.cs) && (n > 0 ==> r.cs[n - 1].at <= last)
    ensures Rising(OpsTo(r, d, n), last)
  {
    if n > 0 {
      var at := r.cs[n - 1].at;
      OpsInOrder(r, d, n - 1, at);
    }
  }

  lemma {:induction false} LapIsAmongItsDrivers(events: seq<Event>, e: Event)
    requires e in events && e.LapRecorded?
    ensures Laps.Counted(e.number, e.ms) in LapsFor(events, e.master)
  {
    if events[|events| - 1] != e {
      assert events == events[..|events| - 1] + [events[|events| - 1]];
      LapIsAmongItsDrivers(events[..|events| - 1], e);
    }
  }

  lemma DriversAt(r: Race, i: nat)
    requires i < |r.cs|
    ensures forall e | e in EventsAt(r, i) && e.LapRecorded? :: e.master in r.registered
  {
    hide FateAt;
    FateCases(r, i);
  }

  lemma {:induction false} LapsHaveDrivers(r: Race, n: nat)
    requires n <= |r.cs|
    ensures forall e | e in EventsTo(r, n) && e.LapRecorded? :: e.master in r.registered
  {
    hide FateAt, EventsAt;
    if n > 0 {
      LapsHaveDrivers(r, n - 1);
      DriversAt(r, n - 1);
    }
  }

  /** Whatever is drawn and whatever the filter, no lap of a generated session is negative. */
  lemma NoLapIsNegative(cfg: Config, session: SessionId, base: int, drivers: seq<Driver>, crossings: seq<Crossing>)
    ensures forall e | e in Session(RaceOf(cfg, session, base, drivers, crossings), drivers) && e.LapRecorded? ::
      e.ms >= 0
  {
    hide EventsTo, LapsFor, OpsTo, Laps.Counts, Laps.After, SortByTime;
    var r := RaceOf(cfg, session, base, drivers, crossings);
    var events := EventsTo(r, |r.cs|);
    SortedStreamIsInTimeOrder(crossings);
    LapsHaveDrivers(r, |r.cs|);
    forall e | e in events && e.LapRecorded? ensures e.ms >= 0 {
      EachDriverIsTimedAlone(r, e.master, |r.cs|);
      OpsInOrder(r, e.master, |r.cs|, if r.cs == [] then 0 else r.cs[|r.cs| - 1].at);
      Laps.OrderedCrossingsGiveNonNegativeLaps(cfg.minLap, Laps.FRESH, OpsTo(r, e.master, |r.cs|));
      LapIsAmongItsDrivers(events, e);
      var laps := LapsFor(events, e.master);
      var i :| 0 <= i < |laps| && laps[i] == Laps.Counted(e.number, e.ms);
    }
  }
}
