/** One consumer and its queues: work, retry and parking on the broker, the deliveries
    it holds unacknowledged, and the idempotent inbox committed with each effect. Every
    broker call may fail, and the process may die between any two of them. */
module Delivery {
  import opened Base
  import opened DlqPolicy

  type EventId = string

  /** What validation and dispatch make of a body; a fixed function of its content.
      Invalid covers contract failures, undecodable data and a blank session id. */
  datatype Class = Invalid | Unhandled | Handled
  datatype Body = Body(id: EventId, class_: Class)
  /** Where a copy is: in a queue, or delivered and not yet acknowledged (Buffer before
      processing, InHand during it, Stuck after an ack or nack that failed). */
  datatype Place = Work | Retry | Parking | Buffer | InHand | Stuck
  datatype Copy = Copy(body: Body, retries: int, place: Place)
  type Tag = nat

  /** What the handler is about to tell the broker about the delivery it holds. */
  datatype Verb = Ack | Requeue | Reject | ToRetry(next: int) | ToParking
  datatype Pc = Waiting | Holding(tag: Tag) | Settling(tag: Tag, verb: Verb)

  datatype Broker = Broker(
    copies: map<Tag, Copy>,    // every copy the broker holds; tags are never reused
    next: Tag,
    inbox: set<EventId>,       // committed together with the effect
    applied: seq<EventId>,     // history: effects in commit order
    ignored: set<Body>,        // history: valid types this consumer does not handle
    routed: set<Body>,         // history: everything the source exchange routed here
    pc: Pc)

  const EMPTY := Broker(map[], 0, {}, [], {}, {}, Waiting)

  /** A publish can fail before or after the broker has stored the copy. */
  datatype Publish = Stored | Lost | StoredThenError

  datatype Sinks = Sinks(canRetry: bool, canPark: bool)

  datatype Step =
    | Route(body: Body)
    | Push(tag: Tag)
    | Take(tag: Tag)
    | Dispatch(storeCommits: bool)
    | Republish(outcome: Publish)
    | Settle(ok: bool)
    | Expire(tag: Tag)
    | Crash

  predicate At(b: Broker, tag: Tag, place: Place) {
    tag in b.copies && b.copies[tag].place == place
  }

  predicate Enabled(b: Broker, step: Step) {
    match step
    case Route(_) => true
    case Push(t) => At(b, t, Work)
    case Take(t) => b.pc.Waiting? && At(b, t, Buffer)
    case Dispatch(_) => b.pc.Holding? && b.pc.tag in b.copies
    case Republish(_) => b.pc.Settling? && b.pc.tag in b.copies && (b.pc.verb.ToRetry? || b.pc.verb.ToParking?)
    case Settle(_) => b.pc.Settling? && b.pc.tag in b.copies && !b.pc.verb.ToRetry? && !b.pc.verb.ToParking?
    case Expire(t) => At(b, t, Retry)
    case Crash => true
  }

  function Move(b: Broker, tag: Tag, place: Place): Broker
    requires tag in b.copies
  {
    b.(copies := b.copies[tag := b.copies[tag].(place := place)])
  }

  function Add(b: Broker, copy: Copy): Broker {
    b.(copies := b.copies[b.next := copy], next := b.next + 1)
  }

  function ParkVerb(sinks: Sinks): Verb { if sinks.canPark then ToParking else Reject }

  function FailVerb(c: Copy, p: Policy, sinks: Sinks): Verb {
    var d := NextRetry(c.retries, p);
    if d.park then ParkVerb(sinks) else if sinks.canRetry then ToRetry(d.nextRetries) else Requeue
  }

  /** Validate, decode, and for a handled type run the transaction. */
  function Dispatched(b: Broker, p: Policy, sinks: Sinks, storeCommits: bool): Broker
    requires Enabled(b, Dispatch(storeCommits))
  {
    var t, c := b.pc.tag, b.copies[b.pc.tag];
    match c.body.class_
    case Invalid => b.(pc := Settling(t, ParkVerb(sinks)))
    case Unhandled => b.(ignored := b.ignored + {c.body}, pc := Settling(t, Ack))
    case Handled =>
      if !storeCommits then b.(pc := Settling(t, FailVerb(c, p, sinks)))
      else if c.body.id in b.inbox then b.(pc := Settling(t, Ack))
      else b.(inbox := b.inbox + {c.body.id}, applied := b.applied + [c.body.id], pc := Settling(t, Ack))
  }

  /** The copy the handler publishes to the dead-letter exchange. */
  function DeadLetter(body: Body, verb: Verb): Copy
    requires verb.ToRetry? || verb.ToParking?
  {
    if verb.ToParking? then Copy(body, 0, Parking) else Copy(body, verb.next, Retry)
  }

  /** Copy first; the original is acknowledged only after the publish succeeded. */
  function Republished(b: Broker, outcome: Publish): Broker
    requires Enabled(b, Republish(outcome))
  {
    var b1 := if outcome.Lost? then b else Add(b, DeadLetter(b.copies[b.pc.tag].body, b.pc.verb));
    b1.(pc := Settling(b.pc.tag, if outcome.Stored? then Ack else Requeue))
  }

  /** A rejected copy dead-letters from the work queue to parking. */
  function Settled(b: Broker, ok: bool): Broker
    requires Enabled(b, Settle(ok))
  {
    var b1, t := b.(pc := Waiting), b.pc.tag;
    if !ok then Move(b1, t, Stuck)
    else match b.pc.verb
      case Requeue => Move(b1, t, Work)
      case Reject => Move(b1, t, Parking)
      case _ => b1.(copies := b1.copies - {t})
  }

  function Do(b: Broker, p: Policy, sinks: Sinks, step: Step): Broker
    requires Enabled(b, step)
  {
    match step
    case Route(body) => Add(b, Copy(body, 0, Work)).(routed := b.routed + {body})
    case Push(t) => Move(b, t, Buffer)
    case Take(t) => Move(b, t, InHand).(pc := Holding(t))
    case Dispatch(commits) => Dispatched(b, p, sinks, commits)
    case Republish(outcome) => Republished(b, outcome)
    case Settle(ok) => Settled(b, ok)
    case Expire(t) => Move(b, t, Work)
    case Crash =>
      // The channel closes: every unacknowledged delivery returns to the work queue.
      b.(copies := map t | t in b.copies ::
        b.copies[t].(place := if b.copies[t].place in {Buffer, InHand, Stuck} then Work else b.copies[t].place),
         pc := Waiting)
  }

  function Exec(b: Broker, p: Policy, sinks: Sinks, steps: seq<Step>): Option<Broker> {
    if steps == [] then Some(b) else
    var before, step := Exec(b, p, sinks, steps[..|steps| - 1]), steps[|steps| - 1];
    if before.Some? && Enabled(before.value, step) then Some(Do(before.value, p, sinks, step)) else None
  }

  // ----- No message is lost ---------------------------------------------------------

  ghost predicate HasCopy(b: Broker, body: Body) {
    exists t :: t in b.copies && b.copies[t].body == body
  }

  ghost predicate HasAnotherCopy(b: Broker, tag: Tag, body: Body) {
    exists t :: t in b.copies && t != tag && b.copies[t].body == body
  }

  predicate Done(b: Broker, body: Body) {
    match body.class_
    case Invalid => false
    case Unhandled => body in b.ignored
    case Handled => body.id in b.inbox
  }

  ghost predicate Inv(b: Broker) {
    && (forall t | t in b.copies :: t < b.next)
    && (forall body | body in b.routed :: HasCopy(b, body) || Done(b, body))
    && (!b.pc.Waiting? ==> At(b, b.pc.tag, InHand))
    && (forall t | t in b.copies && b.copies[t].place == InHand :: !b.pc.Waiting? && t == b.pc.tag)
    // Before an ack, the message is safe without the copy being acknowledged.
    && (b.pc.Settling? && b.pc.verb.Ack? ==>
          HasAnotherCopy(b, b.pc.tag, b.copies[b.pc.tag].body) || Done(b, b.copies[b.pc.tag].body))
  }

  lemma StepKeepsBody(b: Broker, p: Policy, sinks: Sinks, step: Step, body: Body)
    requires Enabled(b, step) && Inv(b) && (HasCopy(b, body) || Done(b, body))
    ensures var t := Do(b, p, sinks, step); HasCopy(t, body) || Done(t, body)
  {
    var after := Do(b, p, sinks, step);
    if !Done(b, body) {
      var t :| t in b.copies && b.copies[t].body == body;
      if step.Settle? && step.ok && b.pc.verb.Ack? && t == b.pc.tag {
        var other :| other in b.copies && other != t && b.copies[other].body == body;
        assert other in after.copies;
      } else {
        assert t in after.copies && after.copies[t].body == body;
      }
    }
  }

  lemma StepKeepsInv(b: Broker, p: Policy, sinks: Sinks, step: Step)
    requires Enabled(b, step) && Inv(b)
    ensures Inv(Do(b, p, sinks, step))
  {
    var after := Do(b, p, sinks, step);
    forall body | body in after.routed ensures HasCopy(after, body) || Done(after, body) {
      if body in b.routed {
        StepKeepsBody(b, p, sinks, step, body);
      } else {
        assert b.next in after.copies && after.copies[b.next].body == body;
      }
    }
    if after.pc.Settling? && after.pc.verb.Ack? {
      var body := after.copies[after.pc.tag].body;
      if step.Republish? {
        assert b.next in after.copies && b.next != after.pc.tag && after.copies[b.next].body == body;
      } else if !Done(after, body) {
        var t :| t in b.copies && t != b.pc.tag && b.copies[t].body == body;
        assert t in after.copies && after.copies[t].body == body;
      }
    }
  }

  /** Main theorem: in every run with failed transactions, lost and half-failed
      publishes, failed acks and crashes at any step, each routed message still has a
      copy in work, unacknowledged, in retry or in parking, or its id is committed in
      the inbox, or it is a valid type this consumer ignores. */
  lemma {:induction false} NoMessageIsLost(p: Policy, sinks: Sinks, steps: seq<Step>, b: Broker)
    requires Exec(EMPTY, p, sinks, steps) == Some(b)
    ensures Inv(b)
    ensures forall body | body in b.routed ::
      || HasCopy(b, body)
      || (body.class_.Handled? && body.id in b.inbox)
      || (body.class_.Unhandled? && body in b.ignored)
  {
    if steps != [] {
      var front := steps[..|steps| - 1];
      NoMessageIsLost(p, sinks, front, Exec(EMPTY, p, sinks, front).value);
      StepKeepsInv(Exec(EMPTY, p, sinks, front).value, p, sinks, steps[|steps| - 1]);
    }
  }

  // ----- Effects happen once, and retries are bounded ---------------------------------

  ghost predicate Distinct(ids: seq<EventId>) {
    forall i, j | 0 <= i < j < |ids| :: ids[i] != ids[j]
  }

  ghost predicate Bounded(b: Broker, p: Policy) {
    && (forall t | t in b.copies :: 0 <= b.copies[t].retries <= Max(0, p.maxAttempts - 1))
    && (b.pc.Settling? && b.pc.verb.ToRetry? ==> 0 <= b.pc.verb.next <= Max(0, p.maxAttempts - 1))
  }

  ghost predicate Once(b: Broker, p: Policy) {
    Distinct(b.applied) && (forall id :: id in b.inbox <==> id in b.applied) && Bounded(b, p)
  }

  lemma StepKeepsOnce(b: Broker, p: Policy, sinks: Sinks, step: Step)
    requires Enabled(b, step) && Once(b, p)
    ensures Once(Do(b, p, sinks, step), p)
  {
  }

  lemma EmptyIsOnce(p: Policy)
    ensures Once(EMPTY, p)
  {
  }

  /** However often a message is redelivered, retried or duplicated by a crash, its
      effect is committed at most once, and no copy carries a header past the cap. */
  lemma {:induction false} EffectsHappenOnce(p: Policy, sinks: Sinks, steps: seq<Step>, b: Broker)
    requires Exec(EMPTY, p, sinks, steps) == Some(b)
    ensures Distinct(b.applied)
    ensures forall id :: id in b.inbox <==> id in b.applied
    ensures Bounded(b, p)
  {
    hide Do, Enabled;
    if steps == [] {
      EmptyIsOnce(p);
    } else {
      var front := steps[..|steps| - 1];
      EffectsHappenOnce(p, sinks, front, Exec(EMPTY, p, sinks, front).value);
      StepKeepsOnce(Exec(EMPTY, p, sinks, front).value, p, sinks, steps[|steps| - 1]);
    }
  }

  // ----- What is never retried ---------------------------------------------------------

  /** Only a handled message is ever retried or leaves its id in the inbox; an unhandled one is
      never parked either. */
  ghost predicate Sorted(b: Broker) {
    && (forall t | t in b.copies :: Fits(b.copies[t]) && b.copies[t].body in b.routed)
    && (forall id | id in b.inbox :: exists body :: body in b.routed && body.class_.Handled? && body.id == id)
  }

  predicate Fits(c: Copy) {
    && (!c.body.class_.Handled? ==> c.retries == 0 && c.place != Retry)
    && (c.body.class_.Unhandled? ==> c.place != Parking)
  }

  /** Without a park sink an invalid message is rejected, never requeued. */
  predicate SettlesFit(b: Broker, sinks: Sinks) {
    b.pc.Settling? && b.pc.tag in b.copies ==>
      match b.copies[b.pc.tag].body.class_
      case Invalid => if sinks.canPark then b.pc.verb in {ToParking, Ack, Requeue} else b.pc.verb.Reject?
      case Unhandled => b.pc.verb.Ack?
      case Handled => true
  }

  lemma StepKeepsSorted(b: Broker, p: Policy, sinks: Sinks, step: Step)
    requires Enabled(b, step) && Inv(b) && Sorted(b) && SettlesFit(b, sinks)
    ensures Sorted(Do(b, p, sinks, step)) && SettlesFit(Do(b, p, sinks, step), sinks)
  {
    hide HasCopy, HasAnotherCopy, Done;
    var after := Do(b, p, sinks, step);
    forall t | t in after.copies ensures Fits(after.copies[t]) && after.copies[t].body in after.routed {
      if t in b.copies {
        assert Fits(b.copies[t]);
      }
    }
    StepKeepsIds(b, p, sinks, step);
  }

  lemma StepKeepsIds(b: Broker, p: Policy, sinks: Sinks, step: Step)
    requires Enabled(b, step) && Sorted(b)
    ensures var after := Do(b, p, sinks, step);
      forall id | id in after.inbox :: exists body :: body in after.routed && body.class_.Handled? && body.id == id
  {
    hide Fits, FailVerb, DeadLetter;
    var after := Do(b, p, sinks, step);
    assert forall body | body in b.routed :: body in after.routed;
    forall id | id in after.inbox
      ensures exists body :: body in after.routed && body.class_.Handled? && body.id == id
    {
      if id in b.inbox {
        var body :| body in b.routed && body.class_.Handled? && body.id == id;
        assert body in after.routed;
      } else {
        assert b.copies[b.pc.tag].body in after.routed;
      }
    }
  }

  lemma EmptyIsSorted(sinks: Sinks)
    ensures Sorted(EMPTY) && SettlesFit(EMPTY, sinks)
  {
  }

  /** Main theorem: in every run a message that fails validation is never in the retry queue
      and never carries a header, an ignored type is never retried or parked, and each id in
      the inbox is that of a routed message the consumer handles. */
  lemma {:induction false} PoisonIsNeverRetried(p: Policy, sinks: Sinks, steps: seq<Step>, b: Broker)
    requires Exec(EMPTY, p, sinks, steps) == Some(b)
    ensures Sorted(b) && SettlesFit(b, sinks)
  {
    hide Do, Enabled, Sorted, SettlesFit;
    if steps == [] {
      EmptyIsSorted(sinks);
    } else {
      var front := steps[..|steps| - 1];
      var before := Exec(EMPTY, p, sinks, front).value;
      PoisonIsNeverRetried(p, sinks, front, before);
      NoMessageIsLost(p, sinks, front, before);
      StepKeepsSorted(before, p, sinks, steps[|steps| - 1]);
    }
  }

  // ----- The handler as it runs -------------------------------------------------------

  /** The outcomes of the calls one Process makes. */
  datatype Weather = Weather(storeCommits: bool, publish: Publish, settleOk: bool)

  class Handler {
    const policy: Policy
    const sinks: Sinks
    var copies: map<Tag, Copy>
    var next: Tag
    var inbox: set<EventId>
    ghost var applied: seq<EventId>
    ghost var ignored: set<Body>
    ghost var routed: set<Body>
    ghost var pc: Pc

    ghost function State(): Broker
      reads this
    {
      Broker(copies, next, inbox, applied, ignored, routed, pc)
    }

    constructor (policy: Policy, sinks: Sinks)
      ensures State() == EMPTY && this.policy == policy && this.sinks == sinks
    {
      this.policy, this.sinks := policy, sinks;
      copies, next := map[], 0;
      inbox, applied, ignored, routed, pc := {}, [], {}, {}, Waiting;
    }

    method MoveTo(t: Tag, place: Place)
      requires t in copies
      modifies this`copies
      ensures State() == Move(old(State()), t, place)
    {
      copies := copies[t := copies[t].(place := place)];
    }

    method AckDelivery(t: Tag, ok: bool)
      requires pc == Settling(t, Ack) && t in copies
      modifies this
      ensures State() == Do(old(State()), policy, sinks, Settle(ok))
    {
      if ok {
        copies := copies - {t};
      } else {
        MoveTo(t, Stuck);
      }
      pc := Waiting;
    }

    method Nack(t: Tag, requeue: bool, ok: bool)
      requires pc == Settling(t, if requeue then Requeue else Reject) && t in copies
      modifies this
      ensures State() == Do(old(State()), policy, sinks, Settle(ok))
    {
      MoveTo(t, if !ok then Stuck else if requeue then Work else Parking);
      pc := Waiting;
    }

    /** Publish to the dead-letter exchange, then ack the original, or requeue it when
        the publish failed. */
    method DeadLetterThenSettle(t: Tag, copy: Copy, w: Weather)
      requires pc.Settling? && t == pc.tag && t in copies && t < next && (pc.verb.ToRetry? || pc.verb.ToParking?)
      requires copy == DeadLetter(copies[t].body, pc.verb)
      modifies this
      ensures Exec(old(State()), policy, sinks, SettlePath(old(pc).verb, w)) == Some(State())
    {
      if !w.publish.Lost? {
        copies, next := copies[next := copy], next + 1;
      }
      pc := Settling(t, if w.publish.Stored? then Ack else Requeue);
      if w.publish.Stored? {
        AckDelivery(t, w.settleOk);
      } else {
        Nack(t, true, w.settleOk);
      }
      TwoSteps(old(State()), policy, sinks, Republish(w.publish), Settle(w.settleOk));
    }

    method Park(t: Tag, w: Weather)
      requires pc == Settling(t, ParkVerb(sinks)) && t in copies && t < next
      modifies this
      ensures Exec(old(State()), policy, sinks, SettlePath(ParkVerb(sinks), w)) == Some(State())
    {
      if sinks.canPark {
        DeadLetterThenSettle(t, Copy(copies[t].body, 0, Parking), w);
      } else {
        Nack(t, false, w.settleOk);
        OneStep(old(State()), policy, sinks, Settle(w.settleOk));
      }
    }

    method RetryOrPark(t: Tag, w: Weather)
      requires t in copies && t < next && pc == Settling(t, FailVerb(copies[t], policy, sinks))
      modifies this
      ensures Exec(old(State()), policy, sinks, SettlePath(old(pc).verb, w)) == Some(State())
    {
      var d := NextRetry(copies[t].retries, policy);
      if d.park {
        Park(t, w);
      } else if sinks.canRetry {
        DeadLetterThenSettle(t, Copy(copies[t].body, d.nextRetries, Retry), w);
      } else {
        Nack(t, true, w.settleOk);
        OneStep(old(State()), policy, sinks, Settle(w.settleOk));
      }
    }

    /** Validate and run the transaction; returns whether the delivery may be acked. */
    method DispatchDelivery(t: Tag, storeCommits: bool) returns (done: bool)
      requires pc == Holding(t) && t in copies
      modifies this
      ensures State() == Do(old(State()), policy, sinks, Dispatch(storeCommits))
      ensures done <==> pc == Settling(t, Ack)
      ensures old(copies[t]).body.class_.Invalid? ==>
        pc == Settling(t, if sinks.canPark then ToParking else Reject) && inbox == old(inbox)
      ensures old(copies[t]).body.class_.Unhandled? ==> pc == Settling(t, Ack) && inbox == old(inbox)
      ensures old(copies[t]).body.class_.Handled? ==>
        inbox == old(inbox) + if storeCommits then {old(copies[t]).body.id} else {}
    {
      var c := copies[t];
      match c.body.class_
      case Invalid =>
        done := false;
        pc := Settling(t, ParkVerb(sinks));
      case Unhandled =>
        done := true;
        ignored := ignored + {c.body};
        pc := Settling(t, Ack);
      case Handled =>
        done := storeCommits;
        if storeCommits && c.body.id !in inbox {
          inbox := inbox + {c.body.id};
          applied := applied + [c.body.id];
        }
        pc := Settling(t, if storeCommits then Ack else FailVerb(c, policy, sinks));
    }

    /** One delivery, start to finish, is a run of the step machine: take, dispatch,
        and the settlement its outcome calls for. */
    method Process(t: Tag, w: Weather)
      requires pc.Waiting? && At(State(), t, Buffer) && t < next
      modifies this
      ensures Exec(old(State()), policy, sinks, ProcessPath(old(State()), policy, sinks, t, w)) == Some(State())
      ensures pc.Waiting?
      ensures copies == CopiesAfter(old(State()), policy, sinks, t, w)
      ensures inbox == old(inbox) + if Commits(old(copies[t]).body, w) then {old(copies[t]).body.id} else {}
    {
      DeliveryOutcome(State(), policy, sinks, t, w);
      MoveTo(t, InHand);
      pc := Holding(t);
      var invalid := copies[t].body.class_.Invalid?;
      var done := DispatchDelivery(t, w.storeCommits);
      ghost var dispatched := State();
      TwoSteps(old(State()), policy, sinks, Take(t), Dispatch(w.storeCommits));
      if done {
        AckDelivery(t, w.settleOk);
        OneStep(dispatched, policy, sinks, Settle(w.settleOk));
      } else if invalid {
        Park(t, w);
      } else {
        RetryOrPark(t, w);
      }
      ExecJoins(old(State()), policy, sinks, [Take(t), Dispatch(w.storeCommits)], SettlePath(dispatched.pc.verb, w));
      SettlePathWaits(dispatched, policy, sinks, w);
    }
  }

  predicate Commits(body: Body, w: Weather) { body.class_.Handled? && w.storeCommits }

  /** What one delivery of copy t does to the queues. An invalid message is parked at once, an
      ignored or committed one is acked, a failed one is retried while attempts are left. Only
      an acked copy is gone; a failed publish leaves it in the work queue, without a park sink
      it is rejected to parking, and a failed ack or nack leaves it unacknowledged. */
  function CopiesAfter(b: Broker, p: Policy, sinks: Sinks, t: Tag, w: Weather): map<Tag, Copy>
    requires t in b.copies
  {
    var c := b.copies[t];
    var fails := c.body.class_.Handled? && !w.storeCommits;
    var parks := c.body.class_.Invalid? || (fails && c.retries + 1 >= p.maxAttempts);
    var publishes := if parks then sinks.canPark else fails && sinks.canRetry;
    var letter := if parks then Copy(c.body, 0, Parking) else Copy(c.body, c.retries + 1, Retry);
    var stored := if publishes && !w.publish.Lost? then b.copies[b.next := letter] else b.copies;
    if !w.settleOk then stored[t := c.(place := Stuck)]
    else if (publishes && w.publish.Stored?) || (!fails && !parks) then stored - {t}
    else stored[t := c.(place := if parks && !sinks.canPark then Parking else Work)]
  }

  lemma DispatchOutcome(b: Broker, p: Policy, sinks: Sinks, t: Tag, commits: bool)
    requires Enabled(b, Take(t))
    ensures var took := Do(b, p, sinks, Take(t));
      Enabled(took, Dispatch(commits)) &&
      var after := Dispatched(took, p, sinks, commits);
      var c := b.copies[t];
      var fails := c.body.class_.Handled? && !commits;
      && after.copies == b.copies[t := c.(place := InHand)] && after.next == b.next
      && after.inbox == b.inbox + (if c.body.class_.Handled? && commits then {c.body.id} else {})
      && after.pc == Settling(t,
           if c.body.class_.Invalid? || (fails && c.retries + 1 >= p.maxAttempts) then
             if sinks.canPark then ToParking else Reject
           else if fails then if sinks.canRetry then ToRetry(c.retries + 1) else Requeue
           else Ack)
  {
    hide Backoff;
  }

  lemma SettleOutcome(b: Broker, p: Policy, sinks: Sinks, w: Weather)
    requires b.pc.Settling? && b.pc.tag in b.copies && b.pc.tag < b.next
    ensures var after := Exec(b, p, sinks, SettlePath(b.pc.verb, w));
      var t, c, publishes := b.pc.tag, b.copies[b.pc.tag], b.pc.verb.ToRetry? || b.pc.verb.ToParking?;
      var letter := if b.pc.verb.ToRetry? then Copy(c.body, b.pc.verb.next, Retry) else Copy(c.body, 0, Parking);
      var stored := if publishes && !w.publish.Lost? then b.copies[b.next := letter] else b.copies;
      && after.Some? && after.value.inbox == b.inbox
      && after.value.copies ==
         if !w.settleOk then stored[t := c.(place := Stuck)]
         else if (publishes && w.publish.Stored?) || b.pc.verb.Ack? then stored - {t}
         else stored[t := c.(place := if b.pc.verb.Reject? then Parking else Work)]
  {
    hide Exec;
    if b.pc.verb.ToRetry? || b.pc.verb.ToParking? {
      TwoSteps(b, p, sinks, Republish(w.publish), Settle(w.settleOk));
      assert SettlePath(b.pc.verb, w) == [Republish(w.publish), Settle(w.settleOk)];
    } else {
      OneStep(b, p, sinks, Settle(w.settleOk));
      assert SettlePath(b.pc.verb, w) == [Settle(w.settleOk)];
    }
  }

  lemma DeliveryOutcome(b: Broker, p: Policy, sinks: Sinks, t: Tag, w: Weather)
    requires b.pc.Waiting? && At(b, t, Buffer) && t < b.next
    ensures var after := Exec(b, p, sinks, ProcessPath(b, p, sinks, t, w));
      && after.Some? && after.value.copies == CopiesAfter(b, p, sinks, t, w)
      && after.value.inbox == b.inbox + if Commits(b.copies[t].body, w) then {b.copies[t].body.id} else {}
  {
    hide Exec, Do, Dispatched, SettlePath;
    var took := Do(b, p, sinks, Take(t));
    DispatchOutcome(b, p, sinks, t, w.storeCommits);
    var dispatched := Do(took, p, sinks, Dispatch(w.storeCommits));
    assert dispatched == Dispatched(took, p, sinks, w.storeCommits) by { DoDispatches(took, p, sinks, w.storeCommits); }
    TwoSteps(b, p, sinks, Take(t), Dispatch(w.storeCommits));
    ExecJoins(b, p, sinks, [Take(t), Dispatch(w.storeCommits)], SettlePath(dispatched.pc.verb, w));
    SettleOutcome(dispatched, p, sinks, w);
    var c := b.copies[t];
    var parks := dispatched.pc.verb.ToParking?;
    HandIsOverwritten(b.copies, t, c.(place := InHand), b.next,
      if parks then Copy(c.body, 0, Parking) else Copy(c.body, c.retries + 1, Retry),
      c.(place := if !w.settleOk then Stuck else if dispatched.pc.verb.Reject? then Parking else Work));
  }

  lemma HandIsOverwritten(copies: map<Tag, Copy>, t: Tag, hand: Copy, next: Tag, letter: Copy, last: Copy)
    requires t in copies && t < next
    ensures var held := copies[t := hand];
      && held[t := last] == copies[t := last] && held[next := letter][t := last] == copies[next := letter][t := last]
      && held - {t} == copies - {t} && held[next := letter] - {t} == copies[next := letter] - {t}
  {
  }

  lemma DoDispatches(b: Broker, p: Policy, sinks: Sinks, commits: bool)
    requires Enabled(b, Dispatch(commits))
    ensures Do(b, p, sinks, Dispatch(commits)) == Dispatched(b, p, sinks, commits)
  {
  }

  ghost function SettlePath(verb: Verb, w: Weather): seq<Step> {
    (if verb.ToRetry? || verb.ToParking? then [Republish(w.publish)] else []) + [Settle(w.settleOk)]
  }

  ghost function ProcessPath(b: Broker, p: Policy, sinks: Sinks, t: Tag, w: Weather): seq<Step>
    requires Enabled(b, Take(t))
  {
    var took := Do(b, p, sinks, Take(t));
    [Take(t), Dispatch(w.storeCommits)] + SettlePath(Dispatched(took, p, sinks, w.storeCommits).pc.verb, w)
  }

  lemma OneStep(b: Broker, p: Policy, sinks: Sinks, step: Step)
    requires Enabled(b, step)
    ensures Exec(b, p, sinks, [step]) == Some(Do(b, p, sinks, step))
  {
    assert [step][..0] == [];
  }

  lemma TwoSteps(b: Broker, p: Policy, sinks: Sinks, one: Step, two: Step)
    requires Enabled(b, one) && Enabled(Do(b, p, sinks, one), two)
    ensures Exec(b, p, sinks, [one, two]) == Some(Do(Do(b, p, sinks, one), p, sinks, two))
    ensures Exec(b, p, sinks, [one] + [two]) == Some(Do(Do(b, p, sinks, one), p, sinks, two))
  {
    OneStep(b, p, sinks, one);
    assert [one, two][..1] == [one] && [one] + [two] == [one, two];
  }

  lemma {:induction false} ExecJoins(b: Broker, p: Policy, sinks: Sinks, xs: seq<Step>, ys: seq<Step>)
    requires Exec(b, p, sinks, xs).Some?
    ensures Exec(b, p, sinks, xs + ys) == Exec(Exec(b, p, sinks, xs).value, p, sinks, ys)
  {
    if ys == [] {
      assert xs + ys == xs;
    } else {
      var front := ys[..|ys| - 1];
      ExecJoins(b, p, sinks, xs, front);
      assert (xs + ys)[..|xs + ys| - 1] == xs + front;
    }
  }

  lemma SettleWaits(b: Broker, p: Policy, sinks: Sinks, w: Weather)
    requires b.pc.Settling? && b.pc.tag in b.copies && b.pc.tag < b.next
    ensures Enabled(b, Settle(w.settleOk)) ==> Do(b, p, sinks, Settle(w.settleOk)).pc.Waiting?
    ensures Enabled(b, Republish(w.publish)) ==>
      var b1 := Do(b, p, sinks, Republish(w.publish));
      Enabled(b1, Settle(w.settleOk)) && Do(b1, p, sinks, Settle(w.settleOk)).pc.Waiting?
  {
  }

  lemma SettlePathWaits(b: Broker, p: Policy, sinks: Sinks, w: Weather)
    requires b.pc.Settling? && b.pc.tag in b.copies && b.pc.tag < b.next
    ensures var after := Exec(b, p, sinks, SettlePath(b.pc.verb, w)); after.Some? && after.value.pc.Waiting?
  {
    hide Exec, Do;
    SettleWaits(b, p, sinks, w);
    if b.pc.verb.ToRetry? || b.pc.verb.ToParking? {
      TwoSteps(b, p, sinks, Republish(w.publish), Settle(w.settleOk));
      assert SettlePath(b.pc.verb, w) == [Republish(w.publish), Settle(w.settleOk)];
    } else {
      OneStep(b, p, sinks, Settle(w.settleOk));
      assert SettlePath(b.pc.verb, w) == [Settle(w.settleOk)];
    }
  }
}
