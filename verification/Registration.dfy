/** Register-first: Timing's resolver bridges a blocking Resolve(email) to the request and
    reply messages of Identity, over a bus that delays, reorders and duplicates. */
module Registration {
  import opened Base
  import opened Identity

  // ----- The resolver: waiters with one-slot channels -----------------------------------------

  type ReplyId = nat

  datatype Client = Client(inbox: set<ReplyId>, waiters: map<RequestId, Option<MasterId>>)

  /** An identity.resolved delivery. */
  datatype Arrival = Arrival(id: ReplyId, request: RequestId, master: MasterId, commits: bool)

  function Signalled(waiters: map<RequestId, Option<MasterId>>, request: RequestId,
                     master: MasterId): map<RequestId, Option<MasterId>> {
    if request in waiters && waiters[request].None? then waiters[request := Some(master)] else waiters
  }

  function Delivered(c: Client, a: Arrival): Client {
    if !a.commits || a.id in c.inbox then c
    else Client(c.inbox + {a.id}, Signalled(c.waiters, a.request, a.master))
  }

  function AllDelivered(c: Client, arrivals: seq<Arrival>): Client {
    if arrivals == [] then c
    else Delivered(AllDelivered(c, arrivals[..|arrivals| - 1]), arrivals[|arrivals| - 1])
  }

  datatype Publication = Accepted | Transient | Permanent

  /** One turn of the retry loop: how the publish went, which replies arrived while it
      waited, and whether the context ended (and won the select). */
  datatype Round = Round(publication: Publication, arrivals: seq<Arrival>, cancelled: bool)

  datatype Answer = Got(master: MasterId) | Cancelled | Rejected | StillWaiting

  function Arrivals(rounds: seq<Round>): seq<Arrival> {
    if rounds == [] then [] else Arrivals(rounds[..|rounds| - 1]) + rounds[|rounds| - 1].arrivals
  }

  class Resolver {
    var inbox: set<ReplyId>
    var waiters: map<RequestId, Option<MasterId>>

    function State(): Client
      reads this
    {
      Client(inbox, waiters)
    }

    constructor ()
      ensures State() == Client({}, map[])
    {
      inbox, waiters := {}, map[];
    }

    method Register(request: RequestId)
      modifies this`waiters
      ensures waiters == old(waiters)[request := None]
    {
      waiters := waiters[request := None];
    }

    method Unregister(request: RequestId)
      modifies this`waiters
      ensures waiters == old(waiters) - {request}
    {
      waiters := waiters - {request};
    }

    /** Never blocks: a full slot keeps its first value and drops the new one. */
    method Signal(request: RequestId, master: MasterId) returns (live: bool)
      modifies this`waiters
      ensures waiters == Signalled(old(waiters), request, master)
      ensures live <==> request in old(waiters)
      ensures live ==> waiters[request].Some?
      ensures live && old(waiters)[request].Some? ==> waiters[request] == old(waiters)[request]
    {
      live := request in waiters;
      if live && waiters[request].None? {
        waiters := waiters[request := Some(master)];
      }
    }

    method Deliver(a: Arrival) returns (duplicate: bool)
      modifies this
      ensures State() == Delivered(old(State()), a)
      ensures duplicate <==> a.commits && a.id in old(inbox)
    {
      duplicate := false;
      if !a.commits {
        return;
      }
      if a.id in inbox {
        return true;
      }
      inbox := inbox + {a.id};
      var _ := Signal(a.request, a.master);
    }

    method DeliverAll(arrivals: seq<Arrival>)
      modifies this
      ensures State() == AllDelivered(old(State()), arrivals)
    {
      for i := 0 to |arrivals|
        invariant State() == AllDelivered(old(State()), arrivals[..i])
      {
        assert arrivals[..i + 1][..i] == arrivals[..i];
        var _ := Deliver(arrivals[i]);
      }
      assert arrivals[..|arrivals|] == arrivals;
    }

    /** The retry loop. The first round that decides gives the answer: a permanent publish error,
        the end of the context, or, on an accepted publish, the first fresh reply to this
        request so far. It leaves no waiter behind however it ends. */
    method Resolve(request: RequestId, rounds: seq<Round>) returns (answer: Answer)
      requires request !in waiters
      modifies this
      ensures answer.Got? ==>
        exists i :: 0 <= i < |Arrivals(rounds)| && Wins(old(inbox), Arrivals(rounds), request, answer.master, i)
      ensures !answer.StillWaiting? ==> request !in waiters
      ensures answer.StillWaiting? ==> request in waiters
      ensures answer.StillWaiting? ==>
        forall i | 0 <= i < |rounds| && rounds[i].publication.Accepted? ::
          NoFreshReply(old(inbox), Arrivals(rounds[..i + 1]), request)
      ensures answer.StillWaiting? ==> forall k | 0 <= k < |rounds| :: Passes(old(inbox), rounds, request, k)
      ensures !answer.StillWaiting? ==>
        exists n :: 0 <= n < |rounds| && Decides(old(inbox), rounds, request, answer, n)
                    && forall k | 0 <= k < n :: Passes(old(inbox), rounds, request, k)
      ensures answer.Cancelled? ==> exists i :: 0 <= i < |rounds| && rounds[i].cancelled
      ensures answer.Rejected? ==> exists i :: 0 <= i < |rounds| && rounds[i].publication.Permanent?
    {
      hide Wins, IsFreshReply, NoFreshReply, AllDelivered, Arrivals;
      Register(request);
      ghost var start := State();
      NothingArrived(start);
      for i := 0 to |rounds|
        invariant State() == AllDelivered(start, Arrivals(rounds[..i]))
        invariant request in waiters
        invariant forall k | 0 <= k < i && rounds[k].publication.Accepted? ::
          NoFreshReply(start.inbox, Arrivals(rounds[..k + 1]), request)
        invariant forall k | 0 <= k < i :: Passes(start.inbox, rounds, request, k)
      {
        NextArrivals(rounds, i);
        if rounds[i].publication.Permanent? {
          Unregister(request);
          assert Decides(start.inbox, rounds, request, Rejected, i);
          return Rejected;
        }
        DeliverAll(rounds[i].arrivals);
        DeliveredJoin(start, Arrivals(rounds[..i]), rounds[i].arrivals);
        WaiterStays(start, Arrivals(rounds[..i + 1]));
        if rounds[i].publication.Transient? {
          // Only the context and the timer are watched here, not the channel.
          if rounds[i].cancelled {
            Unregister(request);
            assert Decides(start.inbox, rounds, request, Cancelled, i);
            return Cancelled;
          }
        } else {
          if rounds[i].cancelled {
            Unregister(request);
            assert Decides(start.inbox, rounds, request, Cancelled, i);
            return Cancelled;
          }
          FirstFreshReplyWins(start, Arrivals(rounds[..i + 1]), request);
          if waiters[request].Some? {
            answer := Got(waiters[request].value);
            ghost var n :| 0 <= n < |Arrivals(rounds[..i + 1])|
              && Wins(start.inbox, Arrivals(rounds[..i + 1]), request, answer.master, n);
            assert Decides(start.inbox, rounds, request, answer, i);
            ArrivalsGrow(rounds, i + 1);
            WinsGrows(start.inbox, Arrivals(rounds[..i + 1]), Arrivals(rounds), request, answer.master, n);
            Unregister(request);
            return;
          }
        }
      }
      return StillWaiting;
    }
  }

  /** Round n leaves the loop waiting. */
  ghost predicate Passes(inbox: set<ReplyId>, rounds: seq<Round>, request: RequestId, n: nat)
    requires n < |rounds|
  {
    && !rounds[n].publication.Permanent? && !rounds[n].cancelled
    && (rounds[n].publication.Accepted? ==> NoFreshReply(inbox, Arrivals(rounds[..n + 1]), request))
  }

  /** Round n ends the loop with this answer. */
  ghost predicate Decides(inbox: set<ReplyId>, rounds: seq<Round>, request: RequestId, answer: Answer, n: nat)
    requires n < |rounds|
  {
    match answer
    case Rejected => rounds[n].publication.Permanent?
    case Cancelled => !rounds[n].publication.Permanent? && rounds[n].cancelled
    case Got(m) =>
      && rounds[n].publication.Accepted? && !rounds[n].cancelled
      && var so := Arrivals(rounds[..n + 1]); exists i :: 0 <= i < |so| && Wins(inbox, so, request, m, i)
    case StillWaiting => false
  }

  /** Arrival i is the first committed, unseen reply to the request. */
  ghost predicate Wins(inbox: set<ReplyId>, arrivals: seq<Arrival>, request: RequestId, master: MasterId, i: nat)
    requires i < |arrivals|
  {
    && IsFreshReply(inbox, arrivals, request, i)
    && arrivals[i].master == master
    && (forall j | 0 <= j < i :: !IsFreshReply(inbox, arrivals, request, j))
  }

  predicate IsFreshReply(inbox: set<ReplyId>, arrivals: seq<Arrival>, request: RequestId, i: nat)
    requires i < |arrivals|
  {
    && arrivals[i].commits && arrivals[i].request == request && arrivals[i].id !in inbox
    && (forall j | 0 <= j < i && arrivals[j].commits :: arrivals[j].id != arrivals[i].id)
  }

  predicate NoFreshReply(inbox: set<ReplyId>, arrivals: seq<Arrival>, request: RequestId) {
    forall i | 0 <= i < |arrivals| :: !IsFreshReply(inbox, arrivals, request, i)
  }

  lemma WinsGrows(inbox: set<ReplyId>, some: seq<Arrival>, all: seq<Arrival>, request: RequestId, master: MasterId,
                  i: nat)
    requires some <= all && i < |some| && Wins(inbox, some, request, master, i)
    ensures Wins(inbox, all, request, master, i)
  {
    forall j | 0 <= j <= i ensures IsFreshReply(inbox, all, request, j) <==> IsFreshReply(inbox, some, request, j) {
    }
  }

  lemma {:induction false} ArrivalsGrow(rounds: seq<Round>, n: nat)
    requires n <= |rounds|
    ensures Arrivals(rounds[..n]) <= Arrivals(rounds)
  {
    if n == |rounds| {
      assert rounds[..n] == rounds;
    } else {
      assert rounds[..|rounds| - 1][..n] == rounds[..n];
      ArrivalsGrow(rounds[..|rounds| - 1], n);
    }
  }

  lemma NothingArrived(c: Client)
    ensures Arrivals([]) == [] && AllDelivered(c, []) == c
  {
  }

  lemma NextArrivals(rounds: seq<Round>, i: nat)
    requires i < |rounds|
    ensures Arrivals(rounds[..i + 1]) == Arrivals(rounds[..i]) + rounds[i].arrivals
  {
    assert rounds[..i + 1][..i] == rounds[..i];
  }

  lemma {:induction false} DeliveredJoin(c: Client, xs: seq<Arrival>, ys: seq<Arrival>)
    ensures AllDelivered(c, xs + ys) == AllDelivered(AllDelivered(c, xs), ys)
  {
    if ys == [] {
      assert xs + ys == xs;
    } else {
      assert (xs + ys)[..|xs + ys| - 1] == xs + ys[..|ys| - 1];
      DeliveredJoin(c, xs, ys[..|ys| - 1]);
    }
  }

  lemma {:induction false} WaiterStays(c: Client, arrivals: seq<Arrival>)
    ensures AllDelivered(c, arrivals).waiters.Keys == c.waiters.Keys
  {
    if arrivals != [] {
      WaiterStays(c, arrivals[..|arrivals| - 1]);
    }
  }

  lemma {:induction false} InboxAfter(c: Client, arrivals: seq<Arrival>, id: ReplyId)
    ensures id in AllDelivered(c, arrivals).inbox <==>
      id in c.inbox || exists j :: 0 <= j < |arrivals| && arrivals[j].commits && arrivals[j].id == id
  {
    if arrivals != [] {
      var front, last := arrivals[..|arrivals| - 1], arrivals[|arrivals| - 1];
      InboxAfter(c, front, id);
      if j :| 0 <= j < |front| && front[j].commits && front[j].id == id {
        assert arrivals[j] == front[j];
      }
      if last.commits && last.id == id {
        assert arrivals[|front|] == last;
      }
    }
  }

  lemma {:induction false} FirstFreshReplyWins(c: Client, arrivals: seq<Arrival>, request: RequestId)
    requires request in c.waiters && c.waiters[request].None?
    ensures var slot := AllDelivered(c, arrivals).waiters;
      && request in slot
      && (slot[request].Some? ==>
            exists i :: 0 <= i < |arrivals| && Wins(c.inbox, arrivals, request, slot[request].value, i))
      && (slot[request].None? ==> NoFreshReply(c.inbox, arrivals, request))
  {
    if arrivals != [] {
      var n := |arrivals| - 1;
      var front, last := arrivals[..n], arrivals[n];
      FirstFreshReplyWins(c, front, request);
      var before := AllDelivered(c, front);
      InboxAfter(c, front, last.id);
      assert IsFreshReply(c.inbox, arrivals, request, n) <==>
        last.commits && last.request == request && last.id !in before.inbox by {
        assert forall j | 0 <= j < n :: arrivals[j] == front[j];
      }
      forall i | 0 <= i < n
        ensures IsFreshReply(c.inbox, arrivals, request, i) <==> IsFreshReply(c.inbox, front, request, i)
      {
      }
      if before.waiters[request].Some? {
        var i :| 0 <= i < |front| && Wins(c.inbox, front, request, before.waiters[request].value, i);
        WinsGrows(c.inbox, front, arrivals, request, before.waiters[request].value, i);
      } else if IsFreshReply(c.inbox, arrivals, request, n) {
        assert Wins(c.inbox, arrivals, request, last.master, n);
      }
    }
  }

  // ----- Timing, Identity and the bus together ---------------------------------------------------

  datatype LookupMessage = LookupMessage(id: EventId, request: RequestId, email: string)
  datatype Return = Return(email: string, master: MasterId)

  /** `begun` and `bus` are histories: every Resolve call made, every lookup published.
      A reply's envelope id is its place in Identity's outbox. */
  datatype Sys = Sys(
    db: Db,
    begun: map<RequestId, string>,
    bus: seq<LookupMessage>,
    client: Client,
    returned: seq<Return>)

  const START := Sys(EMPTY, map[], [], Client({}, map[]), [])

  datatype Step =
    | Begin(request: RequestId, email: string)
    | Publish(request: RequestId, id: EventId)
    | OtherLookup(id: EventId, request: RequestId, email: string)
    | IdentityLookup(n: nat, candidate: MasterId, commits: bool)
    | IdentityErase(id: EventId, request: RequestId, master: MasterId, commits: bool)
    | DeliverReply(k: nat, commits: bool, reaches: bool)
    | TakeReply(request: RequestId)
    | Abandon(request: RequestId)
    | Crash

  function Requests(bus: seq<LookupMessage>): set<RequestId> { set n | 0 <= n < |bus| :: bus[n].request }

  /** Request ids are fresh, and a minted id is never an erased one. */
  predicate Enabled(text: Text, s: Sys, step: Step) {
    match step
    case Begin(r, _) => r !in s.begun && r !in Requests(s.bus)
    case Publish(r, _) => r in s.client.waiters && r in s.begun
    case OtherLookup(_, r, _) => r !in s.begun
    case IdentityLookup(n, candidate, commits) =>
      n < |s.bus| && Identity.FreshStep(text, s.db, LookupOf(s.bus[n], candidate, commits))
    case DeliverReply(k, _, _) => k < |s.db.outbox| && s.db.outbox[k].Resolved?
    case TakeReply(r) => r in s.client.waiters && s.client.waiters[r].Some? && r in s.begun
    case _ => true
  }

  function LookupOf(m: LookupMessage, candidate: MasterId, commits: bool): Identity.Step {
    Identity.LookupStep(m.id, m.request, m.email, candidate, commits)
  }

  function Do(text: Text, s: Sys, step: Step): Sys
    requires Enabled(text, s, step)
  {
    match step
    case Begin(r, email) =>
      s.(begun := s.begun[r := email], client := s.client.(waiters := s.client.waiters[r := None]))
    case Publish(r, id) => s.(bus := s.bus + [LookupMessage(id, r, s.begun[r])])
    case OtherLookup(id, r, email) => s.(bus := s.bus + [LookupMessage(id, r, email)])
    case IdentityLookup(n, candidate, commits) =>
      s.(db := Identity.Do(text, s.db, LookupOf(s.bus[n], candidate, commits)))
    case IdentityErase(id, r, master, commits) =>
      s.(db := Identity.Do(text, s.db, Identity.EraseStep(id, r, master, commits)))
    case DeliverReply(k, commits, reaches) =>
      // The signal is outside the inbox transaction, so it may be lost.
      var a := Arrival(k, s.db.outbox[k].request, s.db.outbox[k].master, commits);
      var c := Delivered(s.client, a);
      s.(client := if reaches then c else c.(waiters := s.client.waiters))
    case TakeReply(r) =>
      s.(returned := s.returned + [Return(s.begun[r], s.client.waiters[r].value)],
         client := s.client.(waiters := s.client.waiters - {r}))
    case Abandon(r) => s.(client := s.client.(waiters := s.client.waiters - {r}))
    case Crash => s.(client := s.client.(waiters := map[]))
  }

  ghost predicate Run(text: Text, steps: seq<Step>, states: seq<Sys>) {
    && |states| == |steps| + 1 && states[0] == START
    && (forall i | 0 <= i < |steps| ::
          Enabled(text, states[i], steps[i]) && states[i + 1] == Do(text, states[i], steps[i]))
  }

  /** Identity enqueued this id for this email. */
  ghost predicate Backed(text: Text, outbox: seq<Fact>, email: string, master: MasterId) {
    exists k :: 0 <= k < |outbox| && outbox[k].Resolved? && outbox[k].email == NormalizeEmail(text, email)
      && outbox[k].master == master
  }

  ghost predicate BusOk(s: Sys) {
    forall n | 0 <= n < |s.bus| && s.bus[n].request in s.begun :: s.begun[s.bus[n].request] == s.bus[n].email
  }

  ghost predicate RepliesOk(text: Text, s: Sys) {
    forall k | 0 <= k < |s.db.outbox| && s.db.outbox[k].Resolved? ::
      && s.db.outbox[k].request in Requests(s.bus)
      && (s.db.outbox[k].request in s.begun ==>
            s.db.outbox[k].email == NormalizeEmail(text, s.begun[s.db.outbox[k].request]))
  }

  ghost predicate ClientOk(text: Text, s: Sys) {
    && (forall k | k in s.client.inbox :: k < |s.db.outbox|)
    && (forall r | r in s.client.waiters :: r in s.begun)
    && (forall r | r in s.client.waiters && s.client.waiters[r].Some? ::
          Backed(text, s.db.outbox, s.begun[r], s.client.waiters[r].value))
    && (forall i | 0 <= i < |s.returned| :: Backed(text, s.db.outbox, s.returned[i].email, s.returned[i].master))
  }

  ghost predicate Good(text: Text, s: Sys) {
    Identity.Inv(text, s.db) && BusOk(s) && RepliesOk(text, s) && ClientOk(text, s)
  }

  lemma BackedGrows(text: Text, xs: seq<Fact>, ys: seq<Fact>, email: string, master: MasterId)
    requires Backed(text, xs, email, master) && xs <= ys
    ensures Backed(text, ys, email, master)
  {
    var k :| 0 <= k < |xs| && xs[k].Resolved? && xs[k].email == NormalizeEmail(text, email) && xs[k].master == master;
    assert ys[k] == xs[k];
  }

  /** Identity's step: its outbox grows by at most the reply to this lookup. */
  lemma IdentityStepKeeps(text: Text, s: Sys, step: Step)
    requires Good(text, s) && (step.IdentityLookup? || step.IdentityErase?) && Enabled(text, s, step)
    ensures Good(text, Do(text, s, step))
  {
    hide Identity.Inv, NormalizeEmail, Identity.MintFails;
    var after := Do(text, s, step);
    if step.IdentityLookup? {
      var m := s.bus[step.n];
      Identity.LookupKeeps(text, s.db, LookupOf(m, step.candidate, step.commits));
      assert m.request in Requests(s.bus);
    } else {
      Identity.EraseKeeps(text, s.db, Identity.EraseStep(step.id, step.request, step.master, step.commits));
    }
    assert s.db.outbox <= after.db.outbox;
    forall email, master | Backed(text, s.db.outbox, email, master)
      ensures Backed(text, after.db.outbox, email, master)
    {
      BackedGrows(text, s.db.outbox, after.db.outbox, email, master);
    }
  }

  lemma BusStepKeeps(text: Text, s: Sys, step: Step)
    requires Good(text, s) && (step.Publish? || step.OtherLookup?) && Enabled(text, s, step)
    ensures Good(text, Do(text, s, step))
  {
    hide Identity.Inv, NormalizeEmail;
    var after := Do(text, s, step);
    forall r | r in Requests(s.bus) ensures r in Requests(after.bus) {
      var n :| 0 <= n < |s.bus| && s.bus[n].request == r;
      assert after.bus[n].request == r;
    }
  }

  lemma ClientStepKeeps(text: Text, s: Sys, step: Step)
    requires Good(text, s) && Enabled(text, s, step)
    requires step.Begin? || step.DeliverReply? || step.TakeReply? || step.Abandon? || step.Crash?
    ensures Good(text, Do(text, s, step))
  {
    hide Identity.Inv, NormalizeEmail;
    var after := Do(text, s, step);
    if step.DeliverReply? {
      var f := s.db.outbox[step.k];
      if f.request in s.begun {
        assert Backed(text, s.db.outbox, s.begun[f.request], f.master);
      }
    } else if step.Begin? {
      assert forall n | 0 <= n < |s.bus| :: s.bus[n].request in Requests(s.bus);
    }
  }

  lemma {:induction false} RunIsGood(text: Text, steps: seq<Step>, states: seq<Sys>)
    requires Run(text, steps, states)
    ensures Good(text, states[|steps|])
  {
    hide Good, Do;
    if steps == [] {
      StartIsGood(text);
    } else {
      var n := |steps| - 1;
      RunIsGood(text, steps[..n], states[..n + 1]);
      var s, step := states[n], steps[n];
      if step.IdentityLookup? || step.IdentityErase? {
        IdentityStepKeeps(text, s, step);
      } else if step.Publish? || step.OtherLookup? {
        BusStepKeeps(text, s, step);
      } else {
        ClientStepKeeps(text, s, step);
      }
    }
  }

  lemma StartIsGood(text: Text)
    ensures Good(text, START)
  {
    Identity.EmptyIsOk(text);
  }

  /** Main theorem: in every run, an id that Resolve(email) returned is the only id Identity
      ever enqueued for that email, and two calls returned the same id exactly when their
      emails normalize alike. */
  lemma ResolveReturnsTheOneId(text: Text, steps: seq<Step>, states: seq<Sys>)
    requires Run(text, steps, states)
    ensures var s := states[|steps|];
      && (forall i, k | 0 <= i < |s.returned| && 0 <= k < |s.db.outbox| && s.db.outbox[k].Resolved? ::
            s.db.outbox[k].email == NormalizeEmail(text, s.returned[i].email) <==>
              s.db.outbox[k].master == s.returned[i].master)
      && (forall i, j | 0 <= i < |s.returned| && 0 <= j < |s.returned| ::
            NormalizeEmail(text, s.returned[i].email) == NormalizeEmail(text, s.returned[j].email) <==>
              s.returned[i].master == s.returned[j].master)
      && (forall i | 0 <= i < |s.returned| && NormalizeEmail(text, s.returned[i].email) in s.db.identities ::
            s.db.identities[NormalizeEmail(text, s.returned[i].email)] == s.returned[i].master)
  {
    hide NormalizeEmail, BusOk, RepliesOk;
    RunIsGood(text, steps, states);
    var s := states[|steps|];
    forall i | 0 <= i < |s.returned|
      ensures exists k :: 0 <= k < |s.db.outbox| && s.db.outbox[k].Resolved?
                          && s.db.outbox[k].email == NormalizeEmail(text, s.returned[i].email)
                          && s.db.outbox[k].master == s.returned[i].master
    {
      assert Backed(text, s.db.outbox, s.returned[i].email, s.returned[i].master);
    }
  }

  /** A lost or dropped signal is harmless: in every state of every run, one more published
      lookup that Identity can answer brings the waiter its id. */
  lemma RetryRecovers(text: Text, s: Sys, request: RequestId, id: EventId, candidate: MasterId) returns (after: Sys)
    requires Good(text, s) && request in s.client.waiters && s.client.waiters[request].None?
    requires var email := NormalizeEmail(text, s.begun[request]);
      && email != "" && text.digest(email) !in s.db.suppressed && id !in s.db.inbox
      && (email in s.db.identities || candidate !in s.db.tombstones) && !MintFails(s.db, email, candidate)
    ensures var email := NormalizeEmail(text, s.begun[request]);
      && email in after.db.identities
      && after.returned == s.returned + [Return(s.begun[request], after.db.identities[email])]
    ensures exists s1, s2, s3 ::
      && Enabled(text, s, Publish(request, id)) && s1 == Do(text, s, Publish(request, id))
      && Enabled(text, s1, IdentityLookup(|s.bus|, candidate, true))
      && s2 == Do(text, s1, IdentityLookup(|s.bus|, candidate, true))
      && Enabled(text, s2, DeliverReply(|s.db.outbox|, true, true))
      && s3 == Do(text, s2, DeliverReply(|s.db.outbox|, true, true))
      && Enabled(text, s3, TakeReply(request)) && after == Do(text, s3, TakeReply(request))
  {
    hide Identity.Inv, NormalizeEmail, Identity.MintFails;
    var s1 := Do(text, s, Publish(request, id));
    var s2 := Do(text, s1, IdentityLookup(|s.bus|, candidate, true));
    var s3 := Do(text, s2, DeliverReply(|s.db.outbox|, true, true));
    after := Do(text, s3, TakeReply(request));
  }
}
