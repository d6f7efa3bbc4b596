/** Parked or applied: a message ends in parking or takes effect, and exactly four things can
    make it do both. */
module Settlement {
  import opened Base
  import opened DlqPolicy
  import opened Delivery
  import opened Escalation

  /** What keeps a message from being settled twice: it is routed once, no publish of its copy
      is half done, and the ack that is due neither fails nor is cut off by a crash. */
  predicate SettlesSmoothly(b: Broker, step: Step, body: Body) {
    match step
    case Route(x) => x == body ==> body !in b.routed
    case Republish(outcome) => Holds(b, body) ==> !outcome.StoredThenError?
    case Settle(ok) => AckDue(b, body) ==> ok
    case Crash => !AckDue(b, body)
    case _ => true
  }

  predicate AckDue(b: Broker, body: Body) { Holds(b, body) && b.pc.Settling? && b.pc.verb.Ack? }

  /** Every step of a run from b settles the message smoothly. */
  predicate Smooth(b: Broker, p: Policy, sinks: Sinks, steps: seq<Step>, body: Body) {
    steps == [] ||
    var front := steps[..|steps| - 1];
    && Smooth(b, p, sinks, front, body)
    && Exec(b, p, sinks, front).Some?
    && SettlesSmoothly(Exec(b, p, sinks, front).value, steps[|steps| - 1], body)
  }

  ghost predicate NoCopy(b: Broker, body: Body) { forall u | u in b.copies :: b.copies[u].body != body }

  /** One message, one fate: its only copy, or its commit. */
  ghost predicate OneFate(b: Broker, body: Body) {
    if body !in b.routed then NoCopy(b, body) && body.id !in b.inbox
    else if AckDue(b, body) then
      || Sole(b, body, b.pc.tag)
      || (body.id !in b.inbox && exists u :: Pair(b, body, b.pc.tag, u))
    else
      || (NoCopy(b, body) && body.id in b.inbox)
      || (body.id !in b.inbox && exists t :: Sole(b, body, t))
  }

  lemma HeldKeepsOneFate(b: Broker, p: Policy, sinks: Sinks, step: Step, body: Body)
    requires Inv(b) && Enabled(b, step) && SettlesSmoothly(b, step, body) && OneFate(b, body)
    requires body.class_.Handled? && Holds(b, body) && (step.Dispatch? || step.Republish? || step.Settle?)
    ensures OneFate(Do(b, p, sinks, step), body)
  {
    var after := Do(b, p, sinks, step);
    assert body in b.routed;
    if AckDue(b, body) {
      if Sole(b, body, b.pc.tag) {
        assert NoCopy(after, body);
        AckedIsDone(b, body);
      } else {
        var u :| Pair(b, body, b.pc.tag, u);
        assert Sole(after, body, u);
      }
    } else {
      var t :| Sole(b, body, t);
      assert t == b.pc.tag;
      if step.Republish? && step.outcome.Stored? {
        assert Pair(after, body, t, b.next);
      } else {
        assert Sole(after, body, t);
      }
    }
  }

  /** An ack of the only copy is only sent when the message is committed. */
  lemma AckedIsDone(b: Broker, body: Body)
    requires Inv(b) && AckDue(b, body) && Sole(b, body, b.pc.tag) && body.class_.Handled?
    ensures body.id in b.inbox
  {
  }

  /** What a step that is not about the message leaves alone. */
  ghost predicate Aside(b: Broker, after: Broker, body: Body) {
    && (forall u :: u in b.copies && b.copies[u].body == body <==> u in after.copies && after.copies[u].body == body)
    && (body in b.routed <==> body in after.routed) && (body.id in b.inbox <==> body.id in after.inbox)
    && (AckDue(b, body) ==> after.pc == b.pc)
    && (AckDue(after, body) ==> after.pc == b.pc)
  }

  lemma AsideKeepsOneFate(b: Broker, after: Broker, body: Body)
    requires OneFate(b, body) && Aside(b, after, body)
    ensures OneFate(after, body)
  {
    if body in b.routed {
      if t :| Sole(b, body, t) {
        assert Sole(after, body, t);
      }
      if AckDue(b, body) {
        if u :| Pair(b, body, b.pc.tag, u) {
          assert Pair(after, body, b.pc.tag, u);
        }
      }
    }
  }

  lemma DispatchIsAside(b: Broker, p: Policy, sinks: Sinks, step: Step, body: Body)
    requires Inv(b) && Enabled(b, step) && step.Dispatch? && !Holds(b, body) && body.class_.Handled?
    ensures Aside(b, Do(b, p, sinks, step), body)
  {
  }

  lemma SettlingIsAside(b: Broker, p: Policy, sinks: Sinks, step: Step, body: Body)
    requires Inv(b) && Enabled(b, step) && (step.Republish? || step.Settle?) && !Holds(b, body)
    ensures Aside(b, Do(b, p, sinks, step), body)
  {
  }

  lemma MovingIsAside(b: Broker, p: Policy, sinks: Sinks, step: Step, body: Body)
    requires Inv(b) && Enabled(b, step) && SettlesSmoothly(b, step, body)
    requires step != Route(body) && !step.Dispatch? && !step.Republish? && !step.Settle?
    ensures Aside(b, Do(b, p, sinks, step), body)
  {
  }

  lemma RoutedHasOneFate(b: Broker, p: Policy, sinks: Sinks, body: Body)
    requires Inv(b) && body !in b.routed && OneFate(b, body)
    ensures OneFate(Do(b, p, sinks, Route(body)), body)
  {
    var after := Do(b, p, sinks, Route(body));
    assert Sole(after, body, b.next);
    if !b.pc.Waiting? {
      assert b.pc.tag in b.copies && b.pc.tag != b.next;
    }
  }

  lemma StepKeepsOneFate(b: Broker, p: Policy, sinks: Sinks, step: Step, body: Body)
    requires Inv(b) && Enabled(b, step) && SettlesSmoothly(b, step, body) && OneFate(b, body) && body.class_.Handled?
    ensures OneFate(Do(b, p, sinks, step), body)
  {
    hide OneFate, Inv, Do, Aside;
    var after := Do(b, p, sinks, step);
    if step == Route(body) {
      RoutedHasOneFate(b, p, sinks, body);
    } else if Holds(b, body) && (step.Dispatch? || step.Republish? || step.Settle?) {
      HeldKeepsOneFate(b, p, sinks, step, body);
    } else {
      if step.Dispatch? {
        DispatchIsAside(b, p, sinks, step, body);
      } else if step.Republish? || step.Settle? {
        SettlingIsAside(b, p, sinks, step, body);
      } else {
        MovingIsAside(b, p, sinks, step, body);
      }
      AsideKeepsOneFate(b, after, body);
    }
  }

  lemma {:induction false} RunKeepsOneFate(p: Policy, sinks: Sinks, steps: seq<Step>, body: Body, b: Broker)
    requires Exec(EMPTY, p, sinks, steps) == Some(b) && Smooth(EMPTY, p, sinks, steps, body) && body.class_.Handled?
    ensures OneFate(b, body) && Inv(b)
  {
    hide OneFate, Do, SettlesSmoothly, Enabled;
    NoMessageIsLost(p, sinks, steps, b);
    if steps == [] {
      NothingHasAFate(body);
    } else {
      var front := steps[..|steps| - 1];
      var before := Exec(EMPTY, p, sinks, front).value;
      RunKeepsOneFate(p, sinks, front, body, before);
      StepKeepsOneFate(before, p, sinks, steps[|steps| - 1], body);
    }
  }

  lemma NothingHasAFate(body: Body)
    ensures OneFate(EMPTY, body)
  {
  }

  /** The message is in parking and took effect. */
  ghost predicate Both(b: Broker, body: Body) {
    body.id in b.inbox && exists t :: At(b, t, Parking) && b.copies[t].body == body
  }

  lemma OneFateIsNotBoth(b: Broker, body: Body)
    requires Inv(b) && OneFate(b, body)
    ensures !Both(b, body)
  {
    if AckDue(b, body) {
      assert b.copies[b.pc.tag].place == InHand;
    }
  }

  /** Parked or applied, never both, in every run in which the message is settled smoothly,
      whatever fails and dies around it. */
  lemma ParkedOrApplied(p: Policy, sinks: Sinks, steps: seq<Step>, body: Body, b: Broker)
    requires Exec(EMPTY, p, sinks, steps) == Some(b) && Smooth(EMPTY, p, sinks, steps, body) && body.class_.Handled?
    ensures !Both(b, body)
  {
    RunKeepsOneFate(p, sinks, steps, body, b);
    OneFateIsNotBoth(b, body);
  }

  // ----- Runs that carry on smoothly ---------------------------------------------------------------

  lemma Stay(b: Broker, p: Policy, body: Body) returns (steps: seq<Step>, c: Broker)
    ensures steps == [] && c == b && Exec(b, p, SINKS, steps) == Some(c) && Smooth(b, p, SINKS, steps, body)
  {
    steps, c := [], b;
  }

  lemma Go(b: Broker, p: Policy, steps: seq<Step>, c: Broker, step: Step, body: Body)
    returns (steps': seq<Step>, c': Broker)
    requires Exec(b, p, SINKS, steps) == Some(c) && Smooth(b, p, SINKS, steps, body)
    requires Enabled(c, step) && SettlesSmoothly(c, step, body)
    ensures steps' == steps + [step] && c' == Do(c, p, SINKS, step)
    ensures Exec(b, p, SINKS, steps') == Some(c') && Smooth(b, p, SINKS, steps', body)
  {
    steps', c' := steps + [step], Do(c, p, SINKS, step);
    assert steps'[..|steps|] == steps;
  }

  /** Nothing is in hand, and no tag is ahead of the counter. */
  ghost predicate Calm(b: Broker) {
    && b.pc.Waiting?
    && (forall t | t in b.copies :: t < b.next && b.copies[t].place in {Work, Retry, Parking})
  }

  /** Bring a waiting copy into the handler's hand. */
  lemma Deliver(b: Broker, p: Policy, steps: seq<Step>, c: Broker, t: Tag, body: Body)
    returns (steps': seq<Step>, c': Broker)
    requires Exec(b, p, SINKS, steps) == Some(c) && Smooth(b, p, SINKS, steps, body)
    requires Calm(c) && t in c.copies && !c.copies[t].place.Parking?
    ensures Exec(b, p, SINKS, steps') == Some(c') && Smooth(b, p, SINKS, steps', body)
    ensures c' == c.(copies := c.copies[t := c.copies[t].(place := InHand)], pc := Holding(t))
  {
    hide Exec, Smooth;
    steps', c' := steps, c;
    if c.copies[t].place == Retry {
      steps', c' := Go(b, p, steps', c', Expire(t), body);
    }
    steps', c' := Go(b, p, steps', c', Push(t), body);
    steps', c' := Go(b, p, steps', c', Take(t), body);
  }

  /** A delivery whose transaction commits. */
  lemma Commit(b: Broker, p: Policy, steps: seq<Step>, c: Broker, t: Tag, body: Body)
    returns (steps': seq<Step>, c': Broker)
    requires Exec(b, p, SINKS, steps) == Some(c) && Smooth(b, p, SINKS, steps, body)
    requires Calm(c) && t in c.copies && !c.copies[t].place.Parking? && c.copies[t].body == body && body.class_.Handled?
    ensures Exec(b, p, SINKS, steps') == Some(c') && Smooth(b, p, SINKS, steps', body)
    ensures Calm(c') && c'.copies == c.copies - {t} && c'.inbox == c.inbox + {body.id}
  {
    hide Exec, Smooth;
    steps', c' := Deliver(b, p, steps, c, t, body);
    steps', c' := Go(b, p, steps', c', Dispatch(true), body);
    steps', c' := Go(b, p, steps', c', Settle(true), body);
    assert c'.copies == c.copies - {t};
  }

  /** The copy a failed attempt leaves behind. */
  function Onward(copy: Copy, p: Policy): Copy {
    var d := NextRetry(copy.retries, p);
    if d.park then Copy(copy.body, 0, Parking) else Copy(copy.body, d.nextRetries, Retry)
  }

  /** A delivery whose transaction fails: one hop towards parking. */
  lemma Hop(b: Broker, p: Policy, steps: seq<Step>, c: Broker, t: Tag, body: Body)
    returns (steps': seq<Step>, c': Broker)
    requires Exec(b, p, SINKS, steps) == Some(c) && Smooth(b, p, SINKS, steps, body)
    requires Calm(c) && t in c.copies && !c.copies[t].place.Parking? && c.copies[t].body == body && body.class_.Handled?
    ensures Exec(b, p, SINKS, steps') == Some(c') && Smooth(b, p, SINKS, steps', body)
    ensures Calm(c') && c'.inbox == c.inbox
    ensures c'.copies == (c.copies - {t})[c.next := Onward(c.copies[t], p)]
  {
    hide Exec, Smooth;
    steps', c' := Deliver(b, p, steps, c, t, body);
    steps', c' := Go(b, p, steps', c', Dispatch(false), body);
    steps', c' := Go(b, p, steps', c', Republish(Stored), body);
    steps', c' := Go(b, p, steps', c', Settle(true), body);
    assert c'.copies == (c.copies - {t})[c.next := Onward(c.copies[t], p)];
  }

  /** Failing on and on, a copy reaches parking under every policy; other copies stay. */
  lemma {:induction false} DriveToParking(b: Broker, p: Policy, steps: seq<Step>, c: Broker, t: Tag, body: Body)
    returns (steps': seq<Step>, c': Broker)
    requires Exec(b, p, SINKS, steps) == Some(c) && Smooth(b, p, SINKS, steps, body)
    requires Calm(c) && t in c.copies && !c.copies[t].place.Parking? && c.copies[t].body == body && body.class_.Handled?
    ensures Exec(b, p, SINKS, steps') == Some(c') && Smooth(b, p, SINKS, steps', body)
    ensures c'.inbox == c.inbox && exists v :: At(c', v, Parking) && c'.copies[v].body == body
    decreases p.maxAttempts - c.copies[t].retries
  {
    hide Exec, Smooth;
    var next := c.next;
    var d := NextRetry(c.copies[t].retries, p);
    steps', c' := Hop(b, p, steps, c, t, body);
    assert next in c'.copies;
    if d.park {
      assert At(c', next, Parking);
    } else {
      steps', c' := DriveToParking(b, p, steps', c', next, body);
    }
  }

  /** A copy that can still be handled, beside the effect or beside another copy. */
  ghost predicate Ripe(b: Broker, body: Body, t: Tag) {
    && Calm(b) && t in b.copies && b.copies[t].body == body && !b.copies[t].place.Parking?
    && (body.id in b.inbox || exists u :: u in b.copies && u != t && b.copies[u].body == body)
  }

  lemma RipeEndsBoth(b: Broker, p: Policy, steps: seq<Step>, c: Broker, t: Tag, body: Body)
    returns (steps': seq<Step>, c': Broker)
    requires Exec(b, p, SINKS, steps) == Some(c) && Smooth(b, p, SINKS, steps, body)
    requires Ripe(c, body, t) && body.class_.Handled?
    ensures Exec(b, p, SINKS, steps') == Some(c') && Smooth(b, p, SINKS, steps', body) && Both(c', body)
  {
    hide Exec, Smooth;
    if body.id in c.inbox {
      steps', c' := DriveToParking(b, p, steps, c, t, body);
    } else {
      var u :| u in c.copies && u != t && c.copies[u].body == body;
      var other := c.copies[u];
      steps', c' := Commit(b, p, steps, c, t, body);
      assert u in c'.copies && c'.copies[u] == other;
      if other.place.Parking? {
        assert At(c', u, Parking);
      } else {
        steps', c' := DriveToParking(b, p, steps', c', u, body);
      }
    }
  }

  // ----- Exactly four causes ------------------------------------------------------------------------

  /** Ripe but for what is in hand, which a crash gives back. */
  ghost predicate NearlyRipe(b: Broker, body: Body, t: Tag) {
    && (forall u | u in b.copies :: u < b.next)
    && t in b.copies && b.copies[t].body == body && !b.copies[t].place.Parking?
    && (body.id in b.inbox || exists u :: u in b.copies && u != t && b.copies[u].body == body)
  }

  lemma CrashRipens(b: Broker, p: Policy, body: Body, t: Tag)
    requires NearlyRipe(b, body, t)
    ensures Ripe(Do(b, p, SINKS, Crash), body, t)
  {
    var c := Do(b, p, SINKS, Crash);
    if u :| u in b.copies && u != t && b.copies[u].body == body {
      assert u in c.copies && c.copies[u].body == body;
    }
  }

  /** The second routing: the copy just added is beside the effect or another copy. */
  lemma RouteIsNearlyRipe(b: Broker, p: Policy, body: Body)
    requires Inv(b) && OneFate(b, body) && body.class_.Handled? && body in b.routed
    ensures var after := Do(b, p, SINKS, Route(body));
      if AckDue(b, body) then AckDue(after, body) && NearlyRipe(Do(after, p, SINKS, Settle(true)), body, b.next)
      else !AckDue(after, body) && NearlyRipe(after, body, b.next)
  {
    var after := Do(b, p, SINKS, Route(body));
    if AckDue(b, body) {
      var c := Do(after, p, SINKS, Settle(true));
      if Sole(b, body, b.pc.tag) {
        AckedIsDone(b, body);
      } else {
        var u :| Pair(b, body, b.pc.tag, u);
        assert u in c.copies && u != b.next && c.copies[u].body == body;
      }
    } else if u :| Sole(b, body, u) {
      assert u in after.copies && u != b.next && after.copies[u].body == body;
    }
  }

  lemma SecondRouteIsRipe(b: Broker, p: Policy, body: Body) returns (steps: seq<Step>, c: Broker)
    requires Inv(b) && OneFate(b, body) && body.class_.Handled? && body in b.routed
    ensures var after := Do(b, p, SINKS, Route(body));
      Exec(after, p, SINKS, steps) == Some(c) && Smooth(after, p, SINKS, steps, body) && Ripe(c, body, b.next)
  {
    hide Exec, Smooth, Ripe, NearlyRipe, OneFate, Inv;
    var after := Do(b, p, SINKS, Route(body));
    steps, c := Stay(after, p, body);
    RouteIsNearlyRipe(b, p, body);
    if AckDue(b, body) {
      steps, c := Go(after, p, steps, c, Settle(true), body);
    }
    CrashRipens(c, p, body, b.next);
    steps, c := Go(after, p, steps, c, Crash, body);
  }

  /** The other three: the copy in hand comes back beside the effect or another copy. */
  lemma HeldIsNearlyRipe(b: Broker, p: Policy, step: Step, body: Body)
    requires Inv(b) && OneFate(b, body) && body.class_.Handled? && Enabled(b, step) && !SettlesSmoothly(b, step, body)
    requires !step.Route?
    ensures !b.pc.Waiting? && NearlyRipe(Do(b, p, SINKS, step), body, b.pc.tag) && !AckDue(Do(b, p, SINKS, step), body)
  {
    var after, t := Do(b, p, SINKS, step), b.pc.tag;
    assert body in b.routed;
    if !AckDue(b, body) {
      assert b.next in after.copies && b.next != t && after.copies[b.next].body == body;
    } else if Sole(b, body, t) {
      AckedIsDone(b, body);
    } else {
      var u :| Pair(b, body, t, u);
      assert u in after.copies && u != t && after.copies[u].body == body;
    }
  }

  lemma HeldIsRipe(b: Broker, p: Policy, step: Step, body: Body) returns (steps: seq<Step>, c: Broker)
    requires Inv(b) && OneFate(b, body) && body.class_.Handled? && Enabled(b, step) && !SettlesSmoothly(b, step, body)
    requires !step.Route?
    ensures !b.pc.Waiting?
    ensures var after := Do(b, p, SINKS, step);
      Exec(after, p, SINKS, steps) == Some(c) && Smooth(after, p, SINKS, steps, body) && Ripe(c, body, b.pc.tag)
  {
    hide Exec, Smooth, Ripe, NearlyRipe, OneFate, Inv, Do;
    var after := Do(b, p, SINKS, step);
    HeldIsNearlyRipe(b, p, step, body);
    steps, c := Stay(after, p, body);
    CrashRipens(c, p, body, b.pc.tag);
    steps, c := Go(after, p, steps, c, Crash, body);
  }

  /** After an unsmooth step the message can be brought, smoothly, to a state that is ripe. */
  lemma UnsmoothIsRipe(b: Broker, p: Policy, step: Step, body: Body) returns (steps: seq<Step>, c: Broker, t: Tag)
    requires Inv(b) && OneFate(b, body) && body.class_.Handled? && Enabled(b, step) && !SettlesSmoothly(b, step, body)
    ensures var after := Do(b, p, SINKS, step);
      Exec(after, p, SINKS, steps) == Some(c) && Smooth(after, p, SINKS, steps, body) && Ripe(c, body, t)
  {
    hide Exec, Smooth, Ripe, OneFate, Inv, Do;
    if step.Route? {
      t := b.next;
      steps, c := SecondRouteIsRipe(b, p, body);
    } else {
      steps, c := HeldIsRipe(b, p, step, body);
      t := b.pc.tag;
    }
  }

  /** Some smooth continuation ends with the message both parked and applied. */
  ghost predicate CanEndBoth(b: Broker, p: Policy, body: Body) {
    exists more ::
      Exec(b, p, SINKS, more).Some? && Smooth(b, p, SINKS, more, body) && Both(Exec(b, p, SINKS, more).value, body)
  }

  lemma UnsmoothCanEndBoth(b: Broker, p: Policy, step: Step, body: Body)
    requires Inv(b) && OneFate(b, body) && body.class_.Handled? && Enabled(b, step) && !SettlesSmoothly(b, step, body)
    ensures CanEndBoth(Do(b, p, SINKS, step), p, body)
  {
    hide Exec, Smooth;
    var steps, c, t := UnsmoothIsRipe(b, p, step, body);
    steps, c := RipeEndsBoth(Do(b, p, SINKS, step), p, steps, c, t, body);
  }

  lemma {:induction false} SmoothKeepsOneFate(b: Broker, p: Policy, more: seq<Step>, c: Broker, body: Body)
    requires Inv(b) && OneFate(b, body) && body.class_.Handled?
    requires Exec(b, p, SINKS, more) == Some(c) && Smooth(b, p, SINKS, more, body)
    ensures Inv(c) && OneFate(c, body)
  {
    hide OneFate, Do, SettlesSmoothly, Enabled, Inv;
    if more != [] {
      var front := more[..|more| - 1];
      var before := Exec(b, p, SINKS, front).value;
      SmoothKeepsOneFate(b, p, front, before, body);
      StepKeepsInv(before, p, SINKS, more[|more| - 1]);
      StepKeepsOneFate(before, p, SINKS, more[|more| - 1], body);
    }
  }

  /** Main theorem: in every state of every run in which a message was settled smoothly so far,
      under every policy, a step can lead to its being both parked and applied if and only if
      the step is one of the four: a second routing, a publish that arrives but reports an
      error, a failed ack, or a crash while its ack is due. */
  lemma BothExactlyWhenUnsmooth(p: Policy, steps: seq<Step>, b: Broker, step: Step, body: Body)
    requires Exec(EMPTY, p, SINKS, steps) == Some(b) && Smooth(EMPTY, p, SINKS, steps, body) && body.class_.Handled?
    requires Enabled(b, step)
    ensures CanEndBoth(Do(b, p, SINKS, step), p, body) <==> !SettlesSmoothly(b, step, body)
  {
    hide Exec, Smooth, OneFate, Inv, Do, SettlesSmoothly, Enabled;
    RunKeepsOneFate(p, SINKS, steps, body, b);
    if !SettlesSmoothly(b, step, body) {
      UnsmoothCanEndBoth(b, p, step, body);
    } else {
      var after := Do(b, p, SINKS, step);
      StepKeepsInv(b, p, SINKS, step);
      StepKeepsOneFate(b, p, SINKS, step, body);
      forall more | Exec(after, p, SINKS, more).Some? && Smooth(after, p, SINKS, more, body)
        ensures !Both(Exec(after, p, SINKS, more).value, body)
      {
        var c := Exec(after, p, SINKS, more).value;
        SmoothKeepsOneFate(after, p, more, c, body);
        OneFateIsNotBoth(c, body);
      }
    }
  }

  /** The four causes. */
  function Causes(body: Body): set<Step> { {Route(body), Republish(StoredThenError), Settle(false), Crash} }

  /** Each of them happens, to every message under every policy: after a smooth run it is
      enabled, and from there the message can end both parked and applied. */
  lemma ParkedAndApplied(p: Policy, id: EventId, cause: Step) returns (steps: seq<Step>, b: Broker)
    requires cause in Causes(Body(id, Handled))
    ensures var body := Body(id, Handled);
      && Exec(EMPTY, p, SINKS, steps) == Some(b) && Smooth(EMPTY, p, SINKS, steps, body) && Enabled(b, cause)
      && CanEndBoth(Do(b, p, SINKS, cause), p, body)
  {
    hide Exec, Smooth;
    var body := Body(id, Handled);
    steps, b := Stay(EMPTY, p, body);
    steps, b := Go(EMPTY, p, steps, b, Route(body), body);
    if !cause.Route? {
      steps, b := Go(EMPTY, p, steps, b, Push(0), body);
      steps, b := Go(EMPTY, p, steps, b, Take(0), body);
      steps, b := Go(EMPTY, p, steps, b, Dispatch(!cause.Republish?), body);
    }
    BothExactlyWhenUnsmooth(p, steps, b, cause, body);
  }
}
