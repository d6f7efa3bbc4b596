/** Crossings to laps: one driver's tracker. Instants are whole milliseconds. */
module Laps {
  import opened Base

  datatype Outcome = StartMarker | Rejected | Counted(number: nat, ms: int)
  datatype Tracker = Tracker(prev: Option<int>, count: nat)

  const FRESH := Tracker(None, 0)

  function Crossed(min: int, tr: Tracker, at: int): (Tracker, Outcome) {
    match tr.prev
    case None => (tr.(prev := Some(at)), StartMarker)
    case Some(p) =>
      if min > 0 && at - p < min then (tr, Rejected)
      else (Tracker(Some(at), tr.count + 1), Counted(tr.count + 1, at - p))
  }

  class LapTracker {
    const minLapTimeMs: int
    var prev: int
    var hasPrev: bool
    var lapCount: nat

    function State(): Tracker
      reads this
    {
      Tracker(if hasPrev then Some(prev) else None, lapCount)
    }

    constructor (minLapTimeMs: int)
      ensures this.minLapTimeMs == minLapTimeMs && State() == FRESH
    {
      this.minLapTimeMs := minLapTimeMs;
      prev, hasPrev, lapCount := 0, false, 0;
    }

    /** Drop the baseline, keep the numbering. */
    method Reset()
      modifies this
      ensures State() == old(State()).(prev := None)
    {
      hasPrev, prev := false, 0;
    }

    method Cross(at: int) returns (outcome: Outcome)
      modifies this
      ensures (State(), outcome) == Crossed(minLapTimeMs, old(State()), at)
      ensures outcome.StartMarker? <==> !old(hasPrev)
      ensures outcome.Rejected? <==> old(hasPrev) && minLapTimeMs > 0 && at - old(prev) < minLapTimeMs
      ensures outcome.Counted? ==> outcome.number == old(lapCount) + 1 && outcome.ms == at - old(prev)
      ensures outcome.Rejected? ==> State() == old(State())
      ensures !outcome.Rejected? ==> hasPrev && prev == at
      ensures lapCount == old(lapCount) + if outcome.Counted? then 1 else 0
    {
      if !hasPrev {
        prev, hasPrev := at, true;
        return StartMarker;
      }
      var delta := at - prev;
      if minLapTimeMs > 0 && delta < minLapTimeMs {
        return Rejected;
      }
      prev, lapCount := at, lapCount + 1;
      return Counted(lapCount, delta);
    }
  }

  // ----- Whole histories of one tracker -------------------------------------------------

  datatype Op = CrossAt(at: int) | Rebase

  function Apply(min: int, tr: Tracker, op: Op): (Tracker, Option<Outcome>) {
    match op
    case Rebase => (tr.(prev := None), None)
    case CrossAt(at) => var (tr1, o) := Crossed(min, tr, at); (tr1, Some(o))
  }

  function After(min: int, tr: Tracker, ops: seq<Op>): Tracker {
    if ops == [] then tr else Apply(min, After(min, tr, ops[..|ops| - 1]), ops[|ops| - 1]).0
  }

  function OutcomeOfLast(min: int, tr: Tracker, ops: seq<Op>): Option<Outcome>
    requires ops != []
  {
    Apply(min, After(min, tr, ops[..|ops| - 1]), ops[|ops| - 1]).1
  }

  /** The counted laps, in order. */
  function Counts(min: int, tr: Tracker, ops: seq<Op>): (laps: seq<Outcome>)
    ensures forall i | 0 <= i < |laps| :: laps[i].Counted?
  {
    if ops == [] then [] else
    var laps, o := Counts(min, tr, ops[..|ops| - 1]), OutcomeOfLast(min, tr, ops);
    if o.Some? && o.value.Counted? then laps + [o.value] else laps
  }

  function WithoutBounces(min: int, tr: Tracker, ops: seq<Op>): seq<Op> {
    if ops == [] then [] else
    var kept := WithoutBounces(min, tr, ops[..|ops| - 1]);
    if OutcomeOfLast(min, tr, ops) == Some(Rejected) then kept else kept + [ops[|ops| - 1]]
  }

  function Total(laps: seq<Outcome>): int
    requires forall i | 0 <= i < |laps| :: laps[i].Counted?
  {
    if laps == [] then 0 else Total(laps[..|laps| - 1]) + laps[|laps| - 1].ms
  }

  /** Numbers run on without a gap across every rebase, and no lap beats the filter. */
  lemma {:induction false} LapsAreNumberedAndFiltered(min: int, tr: Tracker, ops: seq<Op>)
    ensures var laps := Counts(min, tr, ops);
      && After(min, tr, ops).count == tr.count + |laps|
      && (forall i | 0 <= i < |laps| :: laps[i].number == tr.count + i + 1)
      && (min > 0 ==> forall i | 0 <= i < |laps| :: laps[i].ms >= min)
  {
    if ops != [] {
      LapsAreNumberedAndFiltered(min, tr, ops[..|ops| - 1]);
    }
  }

  /** Bounces can be deleted without changing any lap or the tracker itself. */
  lemma {:induction false} BouncesCanBeDeleted(min: int, tr: Tracker, ops: seq<Op>)
    ensures var kept := WithoutBounces(min, tr, ops);
      Counts(min, tr, kept) == Counts(min, tr, ops) && After(min, tr, kept) == After(min, tr, ops)
  {
    if ops != [] {
      var front := ops[..|ops| - 1];
      BouncesCanBeDeleted(min, tr, front);
      var kept := WithoutBounces(min, tr, front);
      assert (kept + [ops[|ops| - 1]])[..|kept|] == kept;
    }
  }

  /** Lap times of an uninterrupted segment telescope: they add up to the last valid
      crossing minus the first. */
  lemma {:induction false} SegmentTelescopes(min: int, tr: Tracker, ops: seq<Op>)
    requires ops != [] && tr.prev.None? && forall i | 0 <= i < |ops| :: ops[i].CrossAt?
    ensures var last := After(min, tr, ops).prev;
      && last.Some?
      && Total(Counts(min, tr, ops)) == last.value - ops[0].at
      && (exists i | 0 <= i < |ops| :: ops[i].at == last.value)
  {
    var front := ops[..|ops| - 1];
    if front == [] {
      assert Counts(min, tr, front) == [];
      assert ops[0].at == After(min, tr, ops).prev.value;
    } else {
      SegmentTelescopes(min, tr, front);
      var laps, o := Counts(min, tr, front), OutcomeOfLast(min, tr, ops).value;
      if o.Counted? {
        assert (laps + [o])[..|laps|] == laps;
        assert ops[|ops| - 1].at == After(min, tr, ops).prev.value;
      } else {
        var i :| 0 <= i < |front| && front[i].at == After(min, tr, front).prev.value;
        assert ops[i] == front[i];
      }
    }
  }

  /** With crossings in time order no lap is negative. */
  lemma {:induction false} OrderedCrossingsGiveNonNegativeLaps(min: int, tr: Tracker, ops: seq<Op>)
    requires forall i, j | 0 <= i < j < |ops| && ops[i].CrossAt? && ops[j].CrossAt? :: ops[i].at <= ops[j].at
    requires tr.prev.None?
    ensures var laps := Counts(min, tr, ops); forall i | 0 <= i < |laps| :: laps[i].ms >= 0
    ensures After(min, tr, ops).prev.Some? ==>
      exists i :: 0 <= i < |ops| && ops[i] == CrossAt(After(min, tr, ops).prev.value)
  {
    if ops != [] {
      var front, last := ops[..|ops| - 1], ops[|ops| - 1];
      OrderedCrossingsGiveNonNegativeLaps(min, tr, front);
      assert forall i | 0 <= i < |Counts(min, tr, front)| :: Counts(min, tr, front)[i].ms >= 0;
      var prev := After(min, tr, front).prev;
      if prev.Some? {
        var i :| 0 <= i < |front| && front[i] == CrossAt(prev.value);
        assert ops[i] == front[i];
        if last.CrossAt? { assert prev.value <= last.at; }
      }
      var laps, o := Counts(min, tr, front), OutcomeOfLast(min, tr, ops);
      if o.Some? && o.value.Counted? {
        assert Counts(min, tr, ops) == laps + [o.value];
        forall i | 0 <= i < |laps + [o.value]| ensures (laps + [o.value])[i].ms >= 0 {
          if i < |laps| { assert laps[i].ms >= 0; }
        }
      } else {
        assert Counts(min, tr, ops) == laps;
      }
      if last.CrossAt? {
        assert ops[|ops| - 1] == CrossAt(last.at);
      }
    }
  }

  // ----- Segments: what lies between two rebases ---------------------------------------------

  /** The finished segments and the one the history ends in. */
  datatype Cut = Cut(early: seq<seq<Op>>, last: seq<Op>)

  function CutOf(ops: seq<Op>): Cut {
    if ops == [] then Cut([], []) else
    var cut, op := CutOf(ops[..|ops| - 1]), ops[|ops| - 1];
    if op.Rebase? then Cut(cut.early + [cut.last], []) else Cut(cut.early, cut.last + [op])
  }

  function Segments(ops: seq<Op>): seq<seq<Op>> { CutOf(ops).early + [CutOf(ops).last] }

  /** The laps of segments timed one after another: each starts without a baseline and
      goes on numbering from `c`. */
  function SegmentLaps(min: int, c: nat, segs: seq<seq<Op>>): (laps: seq<Outcome>)
    ensures forall i | 0 <= i < |laps| :: laps[i].Counted?
  {
    if segs == [] then [] else
    var done := SegmentLaps(min, c, segs[..|segs| - 1]);
    done + Counts(min, Tracker(None, c + |done|), segs[|segs| - 1])
  }

  /** The last valid crossing of a segment minus its first. */
  function Span(min: int, tr: Tracker, seg: seq<Op>): int {
    if seg == [] || !seg[0].CrossAt? || After(min, tr, seg).prev.None? then 0
    else After(min, tr, seg).prev.value - seg[0].at
  }

  function Spans(min: int, c: nat, segs: seq<seq<Op>>): int {
    if segs == [] then 0 else
    var front := segs[..|segs| - 1];
    Spans(min, c, front) + Span(min, Tracker(None, c + |SegmentLaps(min, c, front)|), segs[|segs| - 1])
  }

  lemma {:induction false} SegmentsAreCrossings(ops: seq<Op>)
    ensures forall k | 0 <= k < |Segments(ops)| :: AllCrossings(Segments(ops)[k])
  {
    if ops != [] {
      var front := ops[..|ops| - 1];
      SegmentsAreCrossings(front);
      var cut := CutOf(front);
      assert AllCrossings(Segments(front)[|cut.early|]);
      forall k | 0 <= k < |cut.early| ensures AllCrossings(cut.early[k]) {
        assert Segments(front)[k] == cut.early[k];
      }
    }
  }

  predicate AllCrossings(seg: seq<Op>) { forall i | 0 <= i < |seg| :: seg[i].CrossAt? }

  lemma CountsStep(min: int, tr: Tracker, ops: seq<Op>, op: Op)
    ensures var (tr1, o) := Apply(min, After(min, tr, ops), op);
      && After(min, tr, ops + [op]) == tr1
      && Counts(min, tr, ops + [op]) ==
         Counts(min, tr, ops) + if o.Some? && o.value.Counted? then [o.value] else []
  {
    assert (ops + [op])[..|ops|] == ops;
  }

  lemma OneMoreSegment(min: int, c: nat, segs: seq<seq<Op>>, seg: seq<Op>)
    ensures SegmentLaps(min, c, segs + [seg]) ==
      SegmentLaps(min, c, segs) + Counts(min, Tracker(None, c + |SegmentLaps(min, c, segs)|), seg)
  {
    hide Counts;
    var all := segs + [seg];
    assert all[..|all| - 1] == segs && all[|all| - 1] == seg;
  }

  /** The history's laps are those of `early` and then of `seg`, which it ends in. */
  ghost predicate TimedAs(min: int, c: nat, ops: seq<Op>, early: seq<seq<Op>>, seg: seq<Op>) {
    && Counts(min, Tracker(None, c), ops) == SegmentLaps(min, c, early + [seg])
    && After(min, Tracker(None, c), ops) == After(min, Tracker(None, c + |SegmentLaps(min, c, early)|), seg)
  }

  lemma TimedCross(min: int, c: nat, ops: seq<Op>, early: seq<seq<Op>>, seg: seq<Op>, op: Op)
    requires TimedAs(min, c, ops, early, seg) && op.CrossAt?
    ensures TimedAs(min, c, ops + [op], early, seg + [op])
  {
    hide Counts, After, Crossed, SegmentLaps;
    CountsStep(min, Tracker(None, c), ops, op);
    CountsStep(min, Tracker(None, c + |SegmentLaps(min, c, early)|), seg, op);
    OneMoreSegment(min, c, early, seg);
    OneMoreSegment(min, c, early, seg + [op]);
  }

  lemma TimedRebase(min: int, c: nat, ops: seq<Op>, early: seq<seq<Op>>, seg: seq<Op>)
    requires TimedAs(min, c, ops, early, seg)
    ensures TimedAs(min, c, ops + [Rebase], early + [seg], [])
  {
    hide Counts, After, Crossed, SegmentLaps;
    CountsStep(min, Tracker(None, c), ops, Rebase);
    LapsAreNumberedAndFiltered(min, Tracker(None, c), ops);
    OneMoreSegment(min, c, early + [seg], []);
    NothingCounted(min, Tracker(None, c + |SegmentLaps(min, c, early + [seg])|));
  }

  /** The laps of a history are the concatenation of its segments' laps. */
  lemma {:induction false} LapsAreTheSegmentsLaps(min: int, c: nat, ops: seq<Op>)
    ensures TimedAs(min, c, ops, CutOf(ops).early, CutOf(ops).last)
    ensures Counts(min, Tracker(None, c), ops) == SegmentLaps(min, c, Segments(ops))
  {
    hide Counts, After, Crossed, SegmentLaps, TimedAs;
    if ops == [] {
      NothingTimed(min, c);
    } else {
      var front, op := ops[..|ops| - 1], ops[|ops| - 1];
      LapsAreTheSegmentsLaps(min, c, front);
      var cut := CutOf(front);
      assert ops == front + [op];
      if op.Rebase? {
        TimedRebase(min, c, front, cut.early, cut.last);
      } else {
        TimedCross(min, c, front, cut.early, cut.last, op);
      }
    }
    TimedCounts(min, c, ops, CutOf(ops).early, CutOf(ops).last);
  }

  lemma TimedCounts(min: int, c: nat, ops: seq<Op>, early: seq<seq<Op>>, seg: seq<Op>)
    requires TimedAs(min, c, ops, early, seg)
    ensures Counts(min, Tracker(None, c), ops) == SegmentLaps(min, c, early + [seg])
  {
  }

  lemma NothingTimed(min: int, c: nat)
    ensures TimedAs(min, c, [], [], [])
  {
    OneMoreSegment(min, c, [], []);
  }

  lemma NothingCounted(min: int, tr: Tracker)
    ensures Counts(min, tr, []) == [] && After(min, tr, []) == tr
  {
  }

  lemma {:induction false} TotalJoin(xs: seq<Outcome>, ys: seq<Outcome>)
    requires forall i | 0 <= i < |xs| :: xs[i].Counted?
    requires forall i | 0 <= i < |ys| :: ys[i].Counted?
    ensures Total(xs + ys) == Total(xs) + Total(ys)
  {
    if ys == [] {
      assert xs + ys == xs;
    } else {
      assert (xs + ys)[..|xs + ys| - 1] == xs + ys[..|ys| - 1];
      TotalJoin(xs, ys[..|ys| - 1]);
    }
  }

  /** Each segment's laps total its last valid crossing minus its first. */
  lemma SpanIsTheTotal(min: int, tr: Tracker, seg: seq<Op>)
    requires tr.prev.None? && AllCrossings(seg)
    ensures Total(Counts(min, tr, seg)) == Span(min, tr, seg)
    ensures seg != [] ==>
      After(min, tr, seg).prev.Some? && exists i | 0 <= i < |seg| :: seg[i].at == After(min, tr, seg).prev.value
  {
    if seg != [] {
      SegmentTelescopes(min, tr, seg);
    }
  }

  /** So the laps of a history with any number of rebases total the spans of its segments. */
  lemma {:induction false} SegmentsTelescope(min: int, c: nat, segs: seq<seq<Op>>)
    requires forall k | 0 <= k < |segs| :: AllCrossings(segs[k])
    ensures Total(SegmentLaps(min, c, segs)) == Spans(min, c, segs)
  {
    hide Counts, After, AllCrossings, SegmentLaps, Total, Span;
    if segs == [] {
      NothingTotals(min, c);
    } else {
      var front, seg := segs[..|segs| - 1], segs[|segs| - 1];
      SegmentsTelescope(min, c, front);
      var done := SegmentLaps(min, c, front);
      OneMoreSegment(min, c, front, seg);
      assert segs == front + [seg];
      SpanIsTheTotal(min, Tracker(None, c + |done|), seg);
      TotalJoin(done, Counts(min, Tracker(None, c + |done|), seg));
    }
  }

  lemma NothingTotals(min: int, c: nat)
    ensures Total(SegmentLaps(min, c, [])) == 0
  {
  }
}
