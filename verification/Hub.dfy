/** The keep-latest fan-out of board frames to connected viewers: a bounded buffer per
    client that drops the oldest frame, never the newest. */
module Hub {
  const CAPACITY := 8

  type ClientId = nat
  type Frame = string

  function Min(a: nat, b: nat): nat { if a < b then a else b }

  // ----- The hub as it runs --------------------------------------------------------------------

  class Fanout {
    var clients: map<ClientId, seq<Frame>>

    predicate Valid()
      reads this
    {
      forall c | c in clients :: |clients[c]| <= CAPACITY
    }

    constructor ()
      ensures Valid() && clients == map[]
    {
      clients := map[];
    }

    method Add(c: ClientId)
      requires Valid() && c !in clients
      modifies this
      ensures Valid() && clients == old(clients)[c := []]
    {
      clients := clients[c := []];
    }

    method Remove(c: ClientId)
      requires Valid()
      modifies this
      ensures Valid() && clients == old(clients) - {c}
    {
      clients := clients - {c};
    }

    /** Push one frame to every client. While a full client is handled its reader may take
        frames before the eviction and before the second send: `first` and `second` say how
        many. */
    method Broadcast(frame: Frame, first: ClientId -> nat, second: ClientId -> nat)
      requires Valid()
      modifies this
      ensures Valid() && clients.Keys == old(clients).Keys
      ensures forall c | c in clients :: KeptLatest(old(clients)[c], clients[c], frame, first(c), second(c))
    {
      hide KeptLatest;
      var todo := clients.Keys;
      while exists c :: c in todo
        invariant Valid() && todo <= clients.Keys == old(clients).Keys
        invariant forall c | c in todo :: clients[c] == old(clients)[c]
        invariant forall c | c in clients && c !in todo ::
          KeptLatest(old(clients)[c], clients[c], frame, first(c), second(c))
        decreases todo
      {
        var c :| c in todo;
        var buffer := PushTo(clients[c], frame, first(c), second(c));
        clients := clients[c := buffer];
        todo := todo - {c};
      }
    }
  }

  /** One client: try to send, else evict the oldest and send again. Its reader takes
      `first` frames before the eviction and `second` before the second send. */
  method PushTo(was: seq<Frame>, frame: Frame, first: nat, second: nat) returns (buffer: seq<Frame>)
    requires |was| <= CAPACITY
    ensures |buffer| <= CAPACITY && KeptLatest(was, buffer, frame, first, second)
  {
    if |was| < CAPACITY {
      return was + [frame];
    }
    buffer := was[Min(first, |was|)..];
    if buffer != [] {
      buffer := buffer[1..];
    }
    buffer := buffer[Min(second, |buffer|)..];
    assert buffer == was[|was| - |buffer|..];
    if |buffer| < CAPACITY {
      buffer := buffer + [frame];
    }
  }

  /** The buffer is a suffix of everything up to the new frame and ends with it; nothing is
      dropped below capacity, and at most one frame that the reader did not take: only the
      oldest when it sleeps. */
  predicate KeptLatest(was: seq<Frame>, now: seq<Frame>, frame: Frame, first: nat, second: nat) {
    && now != [] && EndsWith(was + [frame], now)
    && (|was| < CAPACITY ==> now == was + [frame])
    && |now| + first + second >= |was|
    && (|was| == CAPACITY && first == 0 && second == 0 ==> now == was[1..] + [frame])
  }

  predicate EndsWith(whole: seq<Frame>, tail: seq<Frame>) {
    |tail| <= |whole| && tail == whole[|whole| - |tail|..]
  }

  // ----- Every interleaving of broadcasts and reads ----------------------------------------------

  /** `joined` and `sent` count broadcasts: those before the client came, and those that
      were handed to it. `read` is what its reader took. */
  datatype Client = Client(joined: nat, sent: nat, buffer: seq<Frame>, read: seq<Frame>)

  datatype Phase = FirstSend | Evict | SecondSend

  /** The broadcast in progress: clients not finished, and the one being handled. */
  datatype Push = Idle | Pushing(todo: set<ClientId>, at: ClientId, phase: Phase) | Between(todo: set<ClientId>)

  datatype Sys = Sys(all: seq<Frame>, clients: map<ClientId, Client>, push: Push)

  const START := Sys([], map[], Idle)

  datatype Step =
    | Join(c: ClientId)
    | Leave(c: ClientId)
    | Broadcast(frame: Frame)
    | Pick(c: ClientId)
    | Advance
    | Finish
    | Read(c: ClientId)

  /** The mutex keeps joins, leaves and other broadcasts out while one is in progress;
      readers are never kept out. */
  predicate Enabled(s: Sys, step: Step) {
    match step
    case Join(c) => s.push.Idle? && c !in s.clients
    case Leave(c) => s.push.Idle? && c in s.clients
    case Broadcast(_) => s.push.Idle?
    case Pick(c) => s.push.Between? && c in s.push.todo && c in s.clients
    case Advance => s.push.Pushing? && s.push.at in s.clients
    case Finish => s.push.Between? && s.push.todo == {}
    case Read(c) => c in s.clients && s.clients[c].buffer != []
  }

  function Sent(cl: Client, frame: Frame): Client { cl.(buffer := cl.buffer + [frame], sent := cl.sent + 1) }

  function Do(s: Sys, step: Step): Sys {
    if !Enabled(s, step) then s else
    match step
    case Join(c) => s.(clients := s.clients[c := Client(|s.all|, |s.all|, [], [])])
    case Leave(c) => s.(clients := s.clients - {c})
    case Broadcast(f) => s.(all := s.all + [f], push := Between(s.clients.Keys))
    case Pick(c) => s.(push := Pushing(s.push.todo, c, FirstSend))
    case Advance =>
      var c, cl, frame := s.push.at, s.clients[s.push.at], if s.all == [] then "" else s.all[|s.all| - 1];
      var next := Between(s.push.todo - {c});
      (match s.push.phase
       case FirstSend =>
         if |cl.buffer| < CAPACITY then s.(clients := s.clients[c := Sent(cl, frame)], push := next)
         else s.(push := s.push.(phase := Evict))
       case Evict =>
         s.(clients := s.clients[c := if cl.buffer == [] then cl else cl.(buffer := cl.buffer[1..])],
            push := s.push.(phase := SecondSend))
       case SecondSend =>
         if |cl.buffer| < CAPACITY then s.(clients := s.clients[c := Sent(cl, frame)], push := next)
         else s.(push := next))
    case Finish => s.(push := Idle)
    case Read(c) =>
      var cl := s.clients[c];
      s.(clients := s.clients[c := cl.(buffer := cl.buffer[1..], read := cl.read + [cl.buffer[0]])])
  }

  function Exec(steps: seq<Step>): Sys {
    if steps == [] then START else Do(Exec(steps[..|steps| - 1]), steps[|steps| - 1])
  }

  /** xs is ys with some elements left out. */
  predicate Subsequence(xs: seq<Frame>, ys: seq<Frame>) {
    xs == [] ||
    (ys != [] &&
     ((xs[|xs| - 1] == ys[|ys| - 1] && Subsequence(xs[..|xs| - 1], ys[..|ys| - 1])) || Subsequence(xs, ys[..|ys| - 1])))
  }

  lemma SubsequenceGrows(xs: seq<Frame>, ys: seq<Frame>, y: Frame)
    requires Subsequence(xs, ys)
    ensures Subsequence(xs, ys + [y]) && Subsequence(xs + [y], ys + [y])
  {
    assert (ys + [y])[..|ys|] == ys;
    assert (xs + [y])[..|xs|] == xs;
  }

  /** The next frame its reader will see, counted over all broadcasts. */
  function Head(cl: Client): int { cl.sent - |cl.buffer| }

  ghost predicate ClientOk(all: seq<Frame>, cl: Client) {
    && |cl.buffer| <= CAPACITY
    && cl.joined <= Head(cl) && cl.sent <= |all|
    && cl.buffer == all[Head(cl)..cl.sent]
    && Subsequence(cl.read, all[cl.joined..Head(cl)])
  }

  /** Every frame handed over was read, or the newest of them still waits. */
  ghost predicate HasLatest(all: seq<Frame>, cl: Client)
    requires cl.sent <= |all|
  {
    cl.buffer == [] && cl.joined < cl.sent ==> cl.read != [] && cl.read[|cl.read| - 1] == all[cl.sent - 1]
  }

  ghost predicate PushOk(s: Sys) {
    match s.push
    case Idle => forall c | c in s.clients :: s.clients[c].sent == |s.all|
    case Between(todo) => todo <= s.clients.Keys && Counts(s, todo)
    case Pushing(todo, at, phase) =>
      && at in todo && todo <= s.clients.Keys && Counts(s, todo)
      && (phase.SecondSend? ==> |s.clients[at].buffer| < CAPACITY)
  }

  ghost predicate Counts(s: Sys, todo: set<ClientId>) {
    && s.all != []
    && (forall c | c in s.clients :: s.clients[c].sent == if c in todo then |s.all| - 1 else |s.all|)
  }

  predicate MidSecondSend(s: Sys, c: ClientId) { s.push.Pushing? && s.push.at == c && s.push.phase.SecondSend? }

  ghost predicate Good(s: Sys) {
    && (forall c | c in s.clients :: ClientOk(s.all, s.clients[c]))
    && (forall c | c in s.clients :: MidSecondSend(s, c) || HasLatest(s.all, s.clients[c]))
    && PushOk(s)
  }

  lemma SendKeeps(all: seq<Frame>, cl: Client)
    requires ClientOk(all, cl) && |cl.buffer| < CAPACITY && cl.sent < |all|
    ensures ClientOk(all, Sent(cl, all[cl.sent])) && HasLatest(all, Sent(cl, all[cl.sent]))
  {
    assert all[Head(cl)..cl.sent + 1] == all[Head(cl)..cl.sent] + [all[cl.sent]];
  }

  lemma LoseHead(all: seq<Frame>, cl: Client, read: bool)
    requires ClientOk(all, cl) && cl.buffer != []
    ensures var f := cl.buffer[0];
      var cl1 := cl.(buffer := cl.buffer[1..], read := if read then cl.read + [f] else cl.read);
      ClientOk(all, cl1) && (read ==> HasLatest(all, cl1))
  {
    hide Subsequence;
    var f, h := cl.buffer[0], Head(cl);
    assert f == all[h];
    assert all[cl.joined..h + 1] == all[cl.joined..h] + [f];
    SubsequenceGrows(cl.read, all[cl.joined..h], f);
    assert cl.buffer[1..] == all[h + 1..cl.sent];
  }

  lemma BroadcastKeeps(all: seq<Frame>, cl: Client, f: Frame)
    requires ClientOk(all, cl)
    ensures ClientOk(all + [f], cl) && (HasLatest(all, cl) ==> HasLatest(all + [f], cl))
  {
    assert (all + [f])[Head(cl)..cl.sent] == all[Head(cl)..cl.sent];
    assert (all + [f])[cl.joined..Head(cl)] == all[cl.joined..Head(cl)];
  }

  lemma StepKeepsGood(s: Sys, step: Step)
    requires Good(s)
    ensures Good(Do(s, step))
  {
    hide ClientOk, HasLatest;
    if !Enabled(s, step) {
      return;
    }
    UnfoldAll(s);
    match step
    case Join(c) => FreshClient(s.all);
    case Broadcast(f) =>
      forall c | c in s.clients
        ensures ClientOk(s.all + [f], s.clients[c]) && HasLatest(s.all + [f], s.clients[c])
      {
        BroadcastKeeps(s.all, s.clients[c], f);
      }
    case Advance => AdvanceKeepsGood(s);
    case Read(c) => LoseHead(s.all, s.clients[c], true);
    case _ =>
  }

  lemma AdvanceKeepsGood(s: Sys)
    requires Good(s) && Enabled(s, Advance)
    ensures Good(Do(s, Advance))
  {
    hide ClientOk, HasLatest;
    UnfoldAll(s);
    var cl := s.clients[s.push.at];
    if s.push.phase.Evict? {
      if cl.buffer != [] {
        LoseHead(s.all, cl, false);
        assert cl.(read := cl.read) == cl;
      }
    } else if |cl.buffer| < CAPACITY {
      SendKeeps(s.all, cl);
    }
  }

  lemma UnfoldAll(s: Sys)
    requires Good(s)
    ensures forall c | c in s.clients :: |s.clients[c].buffer| <= CAPACITY && s.clients[c].sent <= |s.all|
  {
  }

  lemma FreshClient(all: seq<Frame>)
    ensures ClientOk(all, Client(|all|, |all|, [], [])) && HasLatest(all, Client(|all|, |all|, [], []))
  {
  }

  lemma {:induction false} RunIsGood(steps: seq<Step>)
    ensures Good(Exec(steps))
  {
    hide Good, Do;
    if steps == [] {
      StartIsGood();
    } else {
      RunIsGood(steps[..|steps| - 1]);
      StepKeepsGood(Exec(steps[..|steps| - 1]), steps[|steps| - 1]);
    }
  }

  lemma StartIsGood()
    ensures Good(START)
  {
  }

  /** Main theorem: over every interleaving, a client's buffer holds at most eight frames, is
      a contiguous run of the broadcasts since it joined, and what was read is an in-order
      subsequence of those before it. Between broadcasts that run ends with the newest
      broadcast, and a client with an empty buffer has read that newest frame. */
  lemma KeepLatest(steps: seq<Step>, c: ClientId)
    requires c in Exec(steps).clients
    ensures var s := Exec(steps); var cl := s.clients[c];
      && |cl.buffer| <= CAPACITY && cl.joined <= Head(cl) <= cl.sent <= |s.all|
      && cl.buffer == s.all[Head(cl)..cl.sent]
      && Subsequence(cl.read, s.all[cl.joined..Head(cl)])
      && (s.push.Idle? ==> EndsWith(s.all, cl.buffer))
      && (s.push.Idle? && cl.joined < |s.all| ==>
            if cl.buffer != [] then cl.buffer[|cl.buffer| - 1] == s.all[|s.all| - 1]
            else cl.read != [] && cl.read[|cl.read| - 1] == s.all[|s.all| - 1])
  {
    hide Exec, Subsequence;
    RunIsGood(steps);
  }

  /** The frames handed to the client that its reader never saw. */
  function Lost(cl: Client): int { Head(cl) - cl.joined - |cl.read| }

  /** Lost frames less broadcasts; the broadcast in progress counts once it may evict no more. */
  function Debt(s: Sys, c: ClientId): int {
    (if c in s.clients then Lost(s.clients[c]) else 0) - |s.all|
    + if !s.push.Idle? && c in s.push.todo && !MidSecondSend(s, c) then 1 else 0
  }

  /** A client that lost a frame had eight others, read or waiting. */
  ghost predicate LostLate(s: Sys) {
    forall c | c in s.clients :: var cl := s.clients[c];
      && Lost(cl) >= 0
      && (Lost(cl) > 0 || EvictsNext(s, c) ==>
            |cl.read| + |cl.buffer| + (if MidSecondSend(s, c) then 1 else 0) >= CAPACITY)
  }

  predicate EvictsNext(s: Sys, c: ClientId) { s.push.Pushing? && s.push.at == c && s.push.phase.Evict? }

  /** All that loss depends on in a good state. */
  ghost predicate Plain(s: Sys) {
    && (forall c | c in s.clients :: |s.clients[c].buffer| <= CAPACITY)
    && (s.push.Pushing? ==> s.push.at in s.push.todo)
    && (s.push.Pushing? && s.push.phase.SecondSend? && s.push.at in s.clients ==>
          |s.clients[s.push.at].buffer| < CAPACITY)
  }

  lemma GoodIsPlain(s: Sys)
    requires Good(s)
    ensures Plain(s)
  {
    hide Subsequence, HasLatest;
  }

  lemma StepLosesLate(s: Sys, step: Step)
    requires Plain(s) && LostLate(s)
    ensures LostLate(Do(s, step))
  {
    var after := Do(s, step);
    forall c | c in after.clients
      ensures var cl := after.clients[c];
        && Lost(cl) >= 0
        && (Lost(cl) > 0 || EvictsNext(after, c) ==>
              |cl.read| + |cl.buffer| + (if MidSecondSend(after, c) then 1 else 0) >= CAPACITY)
    {
      if c in s.clients {
        assert Lost(s.clients[c]) >= 0;
      }
    }
  }

  lemma StepLosesAtMost(s: Sys, step: Step, c: ClientId)
    requires Plain(s)
    requires c in s.clients ==> Lost(s.clients[c]) >= 0
    ensures Debt(Do(s, step), c) <= Debt(s, c)
  {
  }

  /** Over any stretch of any run a client loses at most one frame per broadcast, and none
      at all until eight others were read or wait. */
  lemma {:induction false} OneFramePerBroadcast(before: seq<Step>, more: seq<Step>, c: ClientId)
    ensures LostLate(Exec(before + more)) && Debt(Exec(before + more), c) <= Debt(Exec(before), c)
    ensures var s, t := Exec(before), Exec(before + more);
      s.push.Idle? && t.push.Idle? && c in s.clients && c in t.clients ==>
        Lost(t.clients[c]) - Lost(s.clients[c]) <= |t.all| - |s.all|
    decreases |before| + |more|, |more|
  {
    hide LostLate, Debt, Do, Good, Plain;
    var all := before + more;
    if all == [] {
      NothingLost();
    } else {
      var front, last := all[..|all| - 1], all[|all| - 1];
      RunIsGood(front);
      GoodIsPlain(Exec(front));
      if more == [] {
        assert all == before && front + [] == front;
        OneFramePerBroadcast(front, [], c);
      } else {
        assert front == before + more[..|more| - 1];
        OneFramePerBroadcast(before, more[..|more| - 1], c);
      }
      StepLosesLate(Exec(front), last);
      assert c in Exec(front).clients ==> Lost(Exec(front).clients[c]) >= 0 by { NeverNegative(Exec(front)); }
      StepLosesAtMost(Exec(front), last, c);
    }
    LossInDebt(Exec(before), Exec(all), c);
  }

  lemma LossInDebt(s: Sys, t: Sys, c: ClientId)
    ensures Debt(t, c) <= Debt(s, c) && s.push.Idle? && t.push.Idle? && c in s.clients && c in t.clients ==>
      Lost(t.clients[c]) - Lost(s.clients[c]) <= |t.all| - |s.all|
  {
  }

  lemma NeverNegative(s: Sys)
    requires LostLate(s)
    ensures forall c | c in s.clients :: Lost(s.clients[c]) >= 0
  {
  }

  lemma NothingLost()
    ensures LostLate(START)
  {
  }

  /** The second send never finds the buffer full, so its fallback never loses a frame:
      only the hub sends, and readers only take. */
  lemma SecondSendNeverFails(steps: seq<Step>)
    ensures var s := Exec(steps);
      s.push.Pushing? && s.push.phase.SecondSend? ==> s.push.at in s.clients && |s.clients[s.push.at].buffer| < CAPACITY
  {
    RunIsGood(steps);
  }
}
