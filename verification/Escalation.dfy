/** A message that keeps failing is retried and then parked: on the delivery machine, with
    every other message interleaved, its MaxAttempts-th dispatch ends in parking. */
module Escalation {
  import opened Base
  import opened DlqPolicy
  import opened Delivery

  const SINKS := Sinks(true, true)

  function Cap(p: Policy): int { Max(1, p.maxAttempts) }

  /** The handler is working on a copy of this message. */
  predicate Holds(b: Broker, body: Body) {
    !b.pc.Waiting? && b.pc.tag in b.copies && b.copies[b.pc.tag].body == body
  }

  /** The message is routed once, its transactions fail, and its republishes and acks succeed.
      Anything may happen to other messages, and the process may die whenever it is not in
      the middle of settling this one. */
  predicate FailsSmoothly(b: Broker, step: Step, body: Body) {
    match step
    case Route(x) => x == body ==> body !in b.routed
    case Dispatch(commits) => Holds(b, body) ==> !commits
    case Republish(outcome) => Holds(b, body) ==> outcome.Stored?
    case Settle(ok) => Holds(b, body) ==> ok
    case Crash => !(b.pc.Settling? && Holds(b, body))
    case _ => true
  }

  predicate AllSmooth(p: Policy, steps: seq<Step>, body: Body) {
    steps == [] ||
    var front := steps[..|steps| - 1];
    && AllSmooth(p, front, body)
    && Exec(EMPTY, p, SINKS, front).Some? && FailsSmoothly(Exec(EMPTY, p, SINKS, front).value, steps[|steps| - 1], body)
  }

  /** How often the message was dispatched. */
  function Tries(p: Policy, steps: seq<Step>, body: Body): nat {
    if steps == [] then 0 else
    var front, last := steps[..|steps| - 1], steps[|steps| - 1];
    var b := Exec(EMPTY, p, SINKS, front);
    Tries(p, front, body) + if b.Some? && Counts(b.value, last, body) then 1 else 0
  }

  predicate Counts(b: Broker, step: Step, body: Body) { step.Dispatch? && Holds(b, body) }

  ghost predicate Sole(b: Broker, body: Body, t: Tag) {
    && t in b.copies && b.copies[t].body == body
    && forall u | u in b.copies && b.copies[u].body == body :: u == t
  }

  ghost predicate Pair(b: Broker, body: Body, t: Tag, u: Tag) {
    && t in b.copies && u in b.copies && t != u && b.copies[t].body == body && b.copies[u].body == body
    && forall v | v in b.copies && b.copies[v].body == body :: v == t || v == u
  }

  /** Parked exactly at the cap; before that the header counts the dispatches. */
  predicate Placed(b: Broker, p: Policy, t: Tag, n: nat)
    requires t in b.copies
  {
    if b.copies[t].place.Parking? then n == Cap(p) else b.copies[t].retries == n < Cap(p)
  }

  /** Where the message is after n dispatches. */
  ghost predicate Story(b: Broker, p: Policy, body: Body, n: nat) {
    if body !in b.routed then n == 0 && forall u | u in b.copies :: b.copies[u].body != body
    else if b.pc.Settling? && Holds(b, body) then
      match b.pc.verb
      case ToRetry(next) => Sole(b, body, b.pc.tag) && next == n < Cap(p)
      case ToParking => Sole(b, body, b.pc.tag) && n == Cap(p)
      case Ack => exists u :: Pair(b, body, b.pc.tag, u) && Placed(b, p, u, n)
      case _ => false
    else exists t :: Sole(b, body, t) && Placed(b, p, t, n)
  }

  lemma DispatchKeeps(b: Broker, p: Policy, body: Body, n: nat)
    requires Inv(b) && Enabled(b, Dispatch(false)) && Holds(b, body) && body.class_.Handled? && body in b.routed
    requires Story(b, p, body, n)
    ensures Story(Do(b, p, SINKS, Dispatch(false)), p, body, n + 1)
  {
    var after := Do(b, p, SINKS, Dispatch(false));
    var t :| Sole(b, body, t) && Placed(b, p, t, n);
    assert t == b.pc.tag && b.copies[t].place == InHand;
    assert Sole(after, body, t);
  }

  lemma RepublishKeeps(b: Broker, p: Policy, body: Body, n: nat)
    requires Inv(b) && Enabled(b, Republish(Stored)) && Holds(b, body) && body in b.routed
    requires Story(b, p, body, n)
    ensures Story(Do(b, p, SINKS, Republish(Stored)), p, body, n)
  {
    var after := Do(b, p, SINKS, Republish(Stored));
    assert Pair(after, body, b.pc.tag, b.next);
    assert Placed(after, p, b.next, n);
  }

  lemma SettleKeeps(b: Broker, p: Policy, body: Body, n: nat)
    requires Inv(b) && Enabled(b, Settle(true)) && Holds(b, body) && body in b.routed
    requires Story(b, p, body, n)
    ensures Story(Do(b, p, SINKS, Settle(true)), p, body, n)
  {
    var after := Do(b, p, SINKS, Settle(true));
    var u :| Pair(b, body, b.pc.tag, u) && Placed(b, p, u, n);
    assert Sole(after, body, u) && Placed(after, p, u, n);
  }

  /** What a step that is not about to settle or dispatch the message may do to its copies. */
  ghost predicate Untouched(b: Broker, after: Broker, body: Body) {
    && (forall u :: u in b.copies && b.copies[u].body == body <==> u in after.copies && after.copies[u].body == body)
    && (forall u | u in b.copies && b.copies[u].body == body ::
          && after.copies[u].retries == b.copies[u].retries
          && (after.copies[u].place.Parking? <==> b.copies[u].place.Parking?))
    && (body in b.routed <==> body in after.routed)
    && (b.pc.Settling? && Holds(b, body) ==> after.pc == b.pc)
    && (after.pc.Settling? && Holds(after, body) ==> after.pc == b.pc)
  }

  lemma UntouchedKeeps(b: Broker, after: Broker, p: Policy, body: Body, n: nat)
    requires Story(b, p, body, n) && Untouched(b, after, body)
    ensures Story(after, p, body, n)
  {
    if body in b.routed {
      if b.pc.Settling? && Holds(b, body) {
        if b.pc.verb.Ack? {
          var u :| Pair(b, body, b.pc.tag, u) && Placed(b, p, u, n);
          assert Pair(after, body, b.pc.tag, u) && Placed(after, p, u, n);
        }
      } else {
        var t :| Sole(b, body, t) && Placed(b, p, t, n);
        assert Sole(after, body, t) && Placed(after, p, t, n);
      }
    }
  }

  /** Steps that concern the message only as a bystander. */
  lemma OtherStep(b: Broker, p: Policy, step: Step, body: Body)
    requires Inv(b) && Enabled(b, step) && FailsSmoothly(b, step, body)
    requires step != Route(body)
    requires Holds(b, body) ==> !step.Dispatch? && !step.Republish? && !step.Settle?
    ensures Untouched(b, Do(b, p, SINKS, step), body)
  {
    if step.Dispatch? || step.Republish? || step.Settle? {
      OthersHandled(b, p, step, body);
    } else {
      OthersMoved(b, p, step, body);
    }
  }

  lemma OthersHandled(b: Broker, p: Policy, step: Step, body: Body)
    requires Inv(b) && Enabled(b, step) && !Holds(b, body)
    requires step.Dispatch? || step.Republish? || step.Settle?
    ensures Untouched(b, Do(b, p, SINKS, step), body)
  {
  }

  lemma OthersMoved(b: Broker, p: Policy, step: Step, body: Body)
    requires Inv(b) && Enabled(b, step) && FailsSmoothly(b, step, body)
    requires step != Route(body) && !step.Dispatch? && !step.Republish? && !step.Settle?
    ensures Untouched(b, Do(b, p, SINKS, step), body)
  {
  }

  lemma StepTells(b: Broker, p: Policy, step: Step, body: Body, n: nat)
    requires Inv(b) && Enabled(b, step) && FailsSmoothly(b, step, body) && body.class_.Handled?
    requires Story(b, p, body, n)
    ensures Story(Do(b, p, SINKS, step), p, body, if Counts(b, step, body) then n + 1 else n)
  {
    hide Story, Do, Inv;
    HeldIsRouted(b, p, body, n);
    if step == Route(body) {
      RouteTells(b, p, body, n);
    } else if Holds(b, body) && step.Dispatch? {
      DispatchKeeps(b, p, body, n);
    } else if Holds(b, body) && step.Republish? {
      RepublishKeeps(b, p, body, n);
    } else if Holds(b, body) && step.Settle? {
      SettleKeeps(b, p, body, n);
    } else {
      OtherStep(b, p, step, body);
      UntouchedKeeps(b, Do(b, p, SINKS, step), p, body, n);
    }
  }

  lemma HeldIsRouted(b: Broker, p: Policy, body: Body, n: nat)
    requires Story(b, p, body, n)
    ensures Holds(b, body) ==> body in b.routed
  {
  }

  lemma RouteTells(b: Broker, p: Policy, body: Body, n: nat)
    requires Inv(b) && body !in b.routed && Story(b, p, body, n)
    ensures Story(Do(b, p, SINKS, Route(body)), p, body, n)
  {
    var after := Do(b, p, SINKS, Route(body));
    assert Sole(after, body, b.next) && Placed(after, p, b.next, 0);
    assert !(after.pc.Settling? && Holds(after, body)) by {
      if !b.pc.Waiting? {
        assert b.pc.tag in b.copies && b.pc.tag != b.next;
      }
    }
  }

  lemma {:induction false} RunTells(p: Policy, steps: seq<Step>, body: Body, b: Broker)
    requires Exec(EMPTY, p, SINKS, steps) == Some(b) && AllSmooth(p, steps, body) && body.class_.Handled?
    ensures Story(b, p, body, Tries(p, steps, body))
  {
    hide Story, Do, FailsSmoothly, Counts, Enabled;
    if steps == [] {
      NothingTold(p, body);
    } else {
      var front := steps[..|steps| - 1];
      var before := Exec(EMPTY, p, SINKS, front).value;
      RunTells(p, front, body, before);
      NoMessageIsLost(p, SINKS, front, before);
      StepTells(before, p, steps[|steps| - 1], body, Tries(p, front, body));
    }
  }

  lemma NothingTold(p: Policy, body: Body)
    ensures Story(EMPTY, p, body, 0)
  {
  }

  /** Main theorem: in every run in which a message's transactions fail and its republishes
      arrive, it is dispatched at most MaxAttempts times (once when fewer are allowed). Between
      settlements it has exactly one copy: in parking if and only if it was dispatched that
      often, and otherwise with a header that counts its dispatches. */
  lemma ParkedAtTheCap(p: Policy, steps: seq<Step>, body: Body, b: Broker)
    requires Exec(EMPTY, p, SINKS, steps) == Some(b) && AllSmooth(p, steps, body) && body.class_.Handled?
    ensures Tries(p, steps, body) <= Cap(p)
    ensures body in b.routed && !(b.pc.Settling? && Holds(b, body)) ==>
      exists t :: Sole(b, body, t) && Placed(b, p, t, Tries(p, steps, body))
    ensures Tries(p, steps, body) == Cap(p) && !(b.pc.Settling? && Holds(b, body)) ==>
      exists t :: Sole(b, body, t) && b.copies[t].place == Parking
  {
    RunTells(p, steps, body, b);
    if body in b.routed && !(b.pc.Settling? && Holds(b, body)) {
      var t :| Sole(b, body, t) && Placed(b, p, t, Tries(p, steps, body));
    }
  }
}
