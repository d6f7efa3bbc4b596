/** The Driver service: its tables, the four per-envelope transactions of
    driver/consumer.py, and what every delivery run keeps. */
module DriverStore {
  import opened Base

  type MasterId = string
  type SessionId = string
  type EventId = string

  datatype LapRow = LapRow(master: MasterId, session: SessionId, number: int, ms: int, at: string, source: EventId)
  datatype SummaryRow = SummaryRow(master: MasterId, best: Option<int>, count: Option<int>)
  datatype Result = Result(best: Option<int>, count: Option<int>)
  datatype Record = Record(ms: int, session: SessionId, setAt: string)

  /** Outgoing facts, in the order they are enqueued in the outbox. */
  datatype Fact =
    | ProfileUpdated(master: MasterId, cause: EventId)
    | HistoryAppended(master: MasterId, session: SessionId, result: Result, cause: EventId)
    | RecordUpdated(master: MasterId, ms: int, setAt: string, cause: EventId)

  datatype Payload =
    | IdentityResolved(master: MasterId)
    | LapRecorded(master: MasterId, session: SessionId, number: int, ms: int, at: string)
    | SessionEnded(session: SessionId, rows: seq<SummaryRow>)
    | RecordBroken(master: MasterId, session: SessionId, ms: int, occurredAt: string)

  datatype Envelope = Envelope(id: EventId, payload: Payload)

  datatype Db = Db(
    inbox: set<EventId>,
    profiles: set<MasterId>,
    laps: seq<LapRow>,
    summaries: map<(MasterId, SessionId), Result>,
    records: map<MasterId, Record>,
    outbox: seq<Fact>)

  const EMPTY := Db({}, {}, [], map[], map[], [])

  // ----- The transactional effects ------------------------------------------------

  function EnsureProfile(db: Db, master: MasterId, cause: EventId): Db {
    if master in db.profiles then db
    else db.(profiles := db.profiles + {master}, outbox := db.outbox + [ProfileUpdated(master, cause)])
  }

  /** A new lap row collides on the primary key or on the unique source event. */
  predicate Collides(laps: seq<LapRow>, row: LapRow) {
    exists i | 0 <= i < |laps| ::
      (laps[i].master == row.master && laps[i].session == row.session && laps[i].number == row.number)
      || laps[i].source == row.source
  }

  function AppendLap(db: Db, row: LapRow): Db {
    if Collides(db.laps, row) then db else db.(laps := db.laps + [row])
  }

  function StoreSummary(db: Db, session: SessionId, row: SummaryRow, cause: EventId): Db {
    var db1 := EnsureProfile(db, row.master, cause);
    var key, result := (row.master, session), Result(row.best, row.count);
    db1.(summaries := if key in db1.summaries then db1.summaries else db1.summaries[key := result],
         outbox := db1.outbox + [HistoryAppended(row.master, session, result, cause)])
  }

  function StoreSummaries(db: Db, session: SessionId, rows: seq<SummaryRow>, cause: EventId): Db {
    if rows == [] then db
    else StoreSummary(StoreSummaries(db, session, rows[..|rows| - 1], cause), session, rows[|rows| - 1], cause)
  }

  /** ORDER BY lap_time_ms ASC, at ASC. */
  predicate Faster(a: LapRow, b: LapRow) {
    a.ms < b.ms || (a.ms == b.ms && Lex(a.at, b.at))
  }

  function HistoryBest(laps: seq<LapRow>, master: MasterId): Option<LapRow> {
    if laps == [] then None else
    var rest, row := HistoryBest(laps[..|laps| - 1], master), laps[|laps| - 1];
    if row.master == master && (rest.None? || Faster(row, rest.value)) then Some(row) else rest
  }

  function Candidate(laps: seq<LapRow>, broken: Payload): Record
    requires broken.RecordBroken?
  {
    var best := HistoryBest(laps, broken.master);
    if best.None? || broken.ms < best.value.ms then Record(broken.ms, broken.session, broken.occurredAt)
    else Record(best.value.ms, best.value.session, best.value.at)
  }

  function ConfirmRecord(db: Db, broken: Payload, cause: EventId): Db
    requires broken.RecordBroken?
  {
    var c := Candidate(db.laps, broken);
    if broken.master in db.records && db.records[broken.master].ms <= c.ms then db
    else db.(records := db.records[broken.master := c],
             outbox := db.outbox + [RecordUpdated(broken.master, c.ms, c.setAt, cause)])
  }

  function Effect(db: Db, env: Envelope): Db {
    match env.payload
    case IdentityResolved(m) => EnsureProfile(db, m, env.id)
    case LapRecorded(m, s, n, ms, at) => AppendLap(EnsureProfile(db, m, env.id), LapRow(m, s, n, ms, at, env.id))
    case SessionEnded(s, rows) => StoreSummaries(db, s, rows, env.id)
    case RecordBroken(m, _, _, _) => ConfirmRecord(EnsureProfile(db, m, env.id), env.payload, env.id)
  }

  /** One committed transaction: a no-op on a redelivery, otherwise effect and inbox mark. */
  function Process(db: Db, env: Envelope): Db {
    if env.id in db.inbox then db
    else Effect(db, env).(inbox := db.inbox + {env.id})
  }

  // ----- The service as it runs: tables updated in place ---------------------------

  class Service {
    var inbox: set<EventId>
    var profiles: set<MasterId>
    var laps: seq<LapRow>
    var summaries: map<(MasterId, SessionId), Result>
    var records: map<MasterId, Record>
    var outbox: seq<Fact>

    function State(): Db
      reads this
    {
      Db(inbox, profiles, laps, summaries, records, outbox)
    }

    constructor ()
      ensures State() == EMPTY
    {
      inbox, profiles, laps, summaries, records, outbox := {}, {}, [], map[], map[], [];
    }

    /** Put every table back: what a rolled-back transaction leaves. */
    method Rollback(db: Db)
      modifies this
      ensures State() == db
    {
      inbox, profiles, laps := db.inbox, db.profiles, db.laps;
      summaries, records, outbox := db.summaries, db.records, db.outbox;
    }

    method Ensure(master: MasterId, cause: EventId) returns (created: bool)
      modifies this`profiles, this`outbox
      ensures State() == EnsureProfile(old(State()), master, cause)
      ensures created <==> master !in old(profiles)
    {
      created := master !in profiles;
      if created {
        profiles := profiles + {master};
        outbox := outbox + [ProfileUpdated(master, cause)];
      }
    }

    /** The authoritative recompute: the driver's fastest stored lap, earliest on a tie. */
    method FindHistoryBest(master: MasterId) returns (best: Option<LapRow>)
      ensures best == HistoryBest(laps, master)
      ensures best.None? <==> forall i | 0 <= i < |laps| :: laps[i].master != master
      ensures best.Some? ==> best.value in laps && best.value.master == master
      ensures best.Some? ==> forall i | 0 <= i < |laps| && laps[i].master == master :: !Faster(laps[i], best.value)
    {
      best := None;
      for i := 0 to |laps|
        invariant best == HistoryBest(laps[..i], master)
      {
        assert laps[..i + 1][..i] == laps[..i];
        if laps[i].master == master && (best.None? || Faster(laps[i], best.value)) {
          best := Some(laps[i]);
        }
      }
      assert laps[..|laps|] == laps;
      HistoryBestIsFastest(laps, master);
    }

    method IdentityResolvedTx(env: Envelope, commits: bool) returns (duplicate: bool, created: bool)
      requires env.payload.IdentityResolved?
      modifies this
      ensures State() == if commits then Process(old(State()), env) else old(State())
      ensures duplicate <==> env.id in old(inbox)
      ensures created <==> commits && !duplicate && env.payload.master !in old(profiles)
    {
      var before := State();
      duplicate, created := env.id in inbox, false;
      if !duplicate {
        created := Ensure(env.payload.master, env.id);
        inbox := inbox + {env.id};
      }
      if !commits {
        Rollback(before);
        created := false;
      }
    }

    method LapRecordedTx(env: Envelope, commits: bool) returns (duplicate: bool, appended: bool)
      requires env.payload.LapRecorded?
      modifies this
      ensures State() == if commits then Process(old(State()), env) else old(State())
      ensures duplicate <==> env.id in old(inbox)
      ensures appended <==> |laps| == |old(laps)| + 1
      ensures var p := env.payload;
        appended <==> commits && !duplicate && forall i | 0 <= i < |old(laps)| ::
          && old(laps)[i].source != env.id
          && (old(laps)[i].master, old(laps)[i].session, old(laps)[i].number) != (p.master, p.session, p.number)
      ensures appended ==>
        laps == old(laps) + [LapRow(env.payload.master, env.payload.session, env.payload.number, env.payload.ms,
                                    env.payload.at, env.id)]
    {
      var before := State();
      duplicate, appended := env.id in inbox, false;
      if !duplicate {
        var p := env.payload;
        var _ := Ensure(p.master, env.id);
        var row := LapRow(p.master, p.session, p.number, p.ms, p.at, env.id);
        appended := !Collides(laps, row);
        if appended {
          laps := laps + [row];
        }
        inbox := inbox + {env.id};
      }
      if !commits {
        Rollback(before);
        appended := false;
      }
    }

    method SessionEndedTx(env: Envelope, commits: bool) returns (duplicate: bool, histories: nat)
      requires env.payload.SessionEnded?
      modifies this
      ensures State() == if commits then Process(old(State()), env) else old(State())
      ensures duplicate <==> env.id in old(inbox)
      ensures histories == if commits && !duplicate then |env.payload.rows| else 0
    {
      hide StoreSummaries;
      var before := State();
      duplicate, histories := env.id in inbox, 0;
      if !duplicate {
        var rows, session := env.payload.rows, env.payload.session;
        NoSummary(before, session, env.id);
        for i := 0 to |rows|
          invariant State() == StoreSummaries(before, session, rows[..i], env.id)
          invariant inbox == before.inbox
          invariant histories == i
        {
          NextSummary(before, session, rows, i, env.id);
          var _ := Ensure(rows[i].master, env.id);
          var key, result := (rows[i].master, session), Result(rows[i].best, rows[i].count);
          if key !in summaries {
            summaries := summaries[key := result];
          }
          outbox := outbox + [HistoryAppended(rows[i].master, session, result, env.id)];
          histories := histories + 1;
        }
        assert rows[..|rows|] == rows;
        inbox := inbox + {env.id};
      }
      if !commits {
        Rollback(before);
        histories := 0;
      }
    }

    method RecordBrokenTx(env: Envelope, commits: bool) returns (duplicate: bool, published: Option<int>)
      requires env.payload.RecordBroken?
      modifies this
      ensures State() == if commits then Process(old(State()), env) else old(State())
      ensures duplicate <==> env.id in old(inbox)
      ensures published.Some? <==> records != old(records)
      ensures published.Some? ==> env.payload.master in records && records[env.payload.master].ms == published.value
    {
      var before := State();
      duplicate, published := env.id in inbox, None;
      if !duplicate {
        var p := env.payload;
        var _ := Ensure(p.master, env.id);
        var hist := FindHistoryBest(p.master);
        var c := Record(p.ms, p.session, p.occurredAt);
        if hist.Some? && hist.value.ms <= p.ms {
          c := Record(hist.value.ms, hist.value.session, hist.value.at);
        }
        if p.master !in records || c.ms < records[p.master].ms {
          records := records[p.master := c];
          outbox := outbox + [RecordUpdated(p.master, c.ms, c.setAt, env.id)];
          published := Some(c.ms);
        }
        inbox := inbox + {env.id};
      }
      if !commits {
        Rollback(before);
        published := None;
      }
    }
  }

  lemma NoSummary(db: Db, session: SessionId, cause: EventId)
    ensures StoreSummaries(db, session, [], cause) == db
  {
  }

  lemma NextSummary(db: Db, session: SessionId, rows: seq<SummaryRow>, i: nat, cause: EventId)
    requires i < |rows|
    ensures StoreSummaries(db, session, rows[..i + 1], cause) ==
      StoreSummary(StoreSummaries(db, session, rows[..i], cause), session, rows[i], cause)
  {
    assert rows[..i + 1][..i] == rows[..i];
  }

  // ----- What one transaction computes ---------------------------------------------

  /** history_best is the fastest of the driver's rows, the earliest of equals. */
  lemma {:induction false} HistoryBestIsFastest(laps: seq<LapRow>, master: MasterId)
    ensures var best := HistoryBest(laps, master);
      && (best.None? <==> forall i | 0 <= i < |laps| :: laps[i].master != master)
      && (best.Some? ==>
            && best.value in laps && best.value.master == master
            && forall i | 0 <= i < |laps| && laps[i].master == master :: !Faster(laps[i], best.value))
  {
    if laps != [] {
      var front, row := laps[..|laps| - 1], laps[|laps| - 1];
      HistoryBestIsFastest(front, master);
      var rest := HistoryBest(front, master);
      LexTotal(row.at, row.at);
      forall i | 0 <= i < |front| && laps[i].master == master && rest.Some? && Faster(row, rest.value)
        ensures !Faster(laps[i], row)
      {
        assert !Faster(front[i], rest.value);
        if Faster(laps[i], row) {
          FasterTransitive(laps[i], row, rest.value);
        }
      }
    }
  }

  lemma FasterTransitive(a: LapRow, b: LapRow, c: LapRow)
    requires Faster(a, b) && Faster(b, c)
    ensures Faster(a, c)
  {
    if a.ms == b.ms == c.ms {
      LexTransitive(a.at, b.at, c.at);
    }
  }

  /** A break leaves the driver's record at the least of the stored record, the
      driver's stored laps and the claim: below all of them, and one of them. */
  lemma BreakTakesMinimum(db: Db, env: Envelope)
    requires env.payload.RecordBroken? && env.id !in db.inbox
    ensures var m, after := env.payload.master, Process(db, env);
      && m in after.records
      && var ms := after.records[m].ms;
      && ms <= env.payload.ms
      && (m in db.records ==> ms <= db.records[m].ms)
      && (forall i | 0 <= i < |db.laps| && db.laps[i].master == m :: ms <= db.laps[i].ms)
      && (|| after.records[m] == Record(env.payload.ms, env.payload.session, env.payload.occurredAt)
          || (m in db.records && after.records[m] == db.records[m])
          || exists i | 0 <= i < |db.laps| ::
             db.laps[i].master == m && after.records[m] == Record(db.laps[i].ms, db.laps[i].session, db.laps[i].at))
      && forall other | other != m ::
           && (other in after.records <==> other in db.records)
           && (other in db.records ==> after.records[other] == db.records[other])
  {
    HistoryBestIsFastest(db.laps, env.payload.master);
  }

  ghost predicate HistoryReaches(laps: seq<LapRow>, m: MasterId, ms: int) {
    exists i :: 0 <= i < |laps| && laps[i].master == m && laps[i].ms <= ms
  }

  /** The record is the driver's fastest stored lap, the earliest of equals. */
  ghost predicate FromHistory(laps: seq<LapRow>, m: MasterId, record: Record) {
    exists i :: 0 <= i < |laps| && laps[i].master == m && record == Record(laps[i].ms, laps[i].session, laps[i].at)
                && forall j | 0 <= j < |laps| && laps[j].master == m ::
                     laps[i].ms < laps[j].ms || (laps[i].ms == laps[j].ms && !Lex(laps[j].at, laps[i].at))
  }

  /** What a break does, exactly. A record no higher than the claim and than every stored lap
      stays and nothing is announced; otherwise a stored lap that equals or beats the claim
      becomes the record, else the claim does, and it is announced with its own instant. */
  lemma HistoryWinsTies(db: Db, env: Envelope)
    requires env.payload.RecordBroken? && env.id !in db.inbox
    ensures var m, ms, after := env.payload.master, env.payload.ms, Process(db, env);
      var outbox := db.outbox + if m in db.profiles then [] else [ProfileUpdated(m, env.id)];
      if m in db.records && db.records[m].ms <= ms && !HistoryReaches(db.laps, m, db.records[m].ms - 1) then
        after.records == db.records && after.outbox == outbox
      else
        && m in after.records && after.records == db.records[m := after.records[m]]
        && (if HistoryReaches(db.laps, m, ms) then FromHistory(db.laps, m, after.records[m])
            else after.records[m] == Record(ms, env.payload.session, env.payload.occurredAt))
        && after.outbox == outbox + [RecordUpdated(m, after.records[m].ms, after.records[m].setAt, env.id)]
  {
    hide HistoryBest;
    HistoryBestIsFastest(db.laps, env.payload.master);
  }

  lemma {:induction false} StoreSummariesFrame(db: Db, session: SessionId, rows: seq<SummaryRow>, cause: EventId)
    ensures var after := StoreSummaries(db, session, rows, cause);
      && after.laps == db.laps && after.records == db.records
      && forall f | f in after.outbox && f.RecordUpdated? :: f in db.outbox
  {
    if rows != [] {
      StoreSummariesFrame(db, session, rows[..|rows| - 1], cause);
    }
  }

  /** What any transaction may do to laps and records: laps only grow, by the
      delivered lap; a record only falls; a new announcement carries the new record. */
  lemma ProcessFrame(db: Db, env: Envelope)
    ensures var after := Process(db, env);
      && after.inbox == db.inbox + {env.id}
      && (forall row | row in after.laps && row !in db.laps ::
            env.payload.LapRecorded? && row.master == env.payload.master && row.ms == env.payload.ms)
      && (forall m | m in db.records :: m in after.records && after.records[m].ms <= db.records[m].ms)
      && (forall m | m in after.records && (m !in db.records || after.records[m] != db.records[m]) ::
            && env.payload.RecordBroken? && env.payload.master == m && env.id !in db.inbox
            && (|| after.records[m].ms == env.payload.ms
                || exists row | row in db.laps :: row.master == m && row.ms == after.records[m].ms))
      && (forall f | f in after.outbox && f.RecordUpdated? && f !in db.outbox ::
            f.master in after.records && after.records[f.master].ms == f.ms)
  {
    if env.id !in db.inbox {
      match env.payload
      case SessionEnded(s, rows) => StoreSummariesFrame(db, s, rows, env.id);
      case RecordBroken(m, _, _, _) => HistoryBestIsFastest(db.laps, m);
      case _ =>
    }
  }

  /** Where laps and records come from, field by field. */
  lemma ProcessSource(db: Db, env: Envelope)
    ensures var after := Process(db, env);
      && (forall row | row in after.laps ::
            || row in db.laps
            || env == Envelope(row.source, LapRecorded(row.master, row.session, row.number, row.ms, row.at)))
      && (forall m | m in after.records ::
            || (m in db.records && after.records[m] == db.records[m])
            || (exists row | row in db.laps ::
                  row.master == m && after.records[m] == Record(row.ms, row.session, row.at))
            || (&& env.payload.RecordBroken? && env.payload.master == m
                && after.records[m] == Record(env.payload.ms, env.payload.session, env.payload.occurredAt)))
  {
    hide Collides, HistoryBest;
    match env.payload
    case SessionEnded(s, rows) => StoreSummariesFrame(db, s, rows, env.id);
    case RecordBroken(m, _, _, _) => HistoryBestIsFastest(db.laps, m);
    case _ =>
  }

  // ----- Every delivery run ----------------------------------------------------------

  /** One delivery of an envelope; `commits` is false when the transaction fails. */
  datatype Attempt = Attempt(env: Envelope, commits: bool)

  function Run(attempts: seq<Attempt>): Db {
    if attempts == [] then EMPTY else
    var db, last := Run(attempts[..|attempts| - 1]), attempts[|attempts| - 1];
    if last.commits then Process(db, last.env) else db
  }

  /** The envelopes whose effect was applied, in the order they were. */
  function Applied(attempts: seq<Attempt>): seq<Envelope> {
    if attempts == [] then [] else
    var done, last := Applied(attempts[..|attempts| - 1]), attempts[|attempts| - 1];
    if last.commits && last.env.id !in Ids(done) then done + [last.env] else done
  }

  function Ids(envs: seq<Envelope>): set<EventId> {
    set i | 0 <= i < |envs| :: envs[i].id
  }

  function Masters(payload: Payload): set<MasterId> {
    match payload
    case SessionEnded(_, rows) => set i | 0 <= i < |rows| :: rows[i].master
    case _ => {payload.master}
  }

  function MastersSeen(envs: seq<Envelope>): set<MasterId> {
    set i, m | 0 <= i < |envs| && m in Masters(envs[i].payload) :: m
  }

  /** The history facts called for: one per summary row, with the row's own best and count. */
  function HistoryDue(envs: seq<Envelope>): seq<Fact> {
    if envs == [] then [] else
    var env := envs[|envs| - 1];
    HistoryDue(envs[..|envs| - 1])
    + if env.payload.SessionEnded? then RowFacts(env.payload.session, env.payload.rows, env.id) else []
  }

  function RowFacts(session: SessionId, rows: seq<SummaryRow>, cause: EventId): seq<Fact> {
    seq(|rows|, i requires 0 <= i < |rows| =>
      HistoryAppended(rows[i].master, session, Result(rows[i].best, rows[i].count), cause))
  }

  // Projections of the outbox.

  function ProfileFacts(outbox: seq<Fact>, master: MasterId): nat {
    if outbox == [] then 0 else
    var f := outbox[|outbox| - 1];
    ProfileFacts(outbox[..|outbox| - 1], master) + if f.ProfileUpdated? && f.master == master then 1 else 0
  }

  function HistoryFacts(outbox: seq<Fact>): seq<Fact> {
    if outbox == [] then [] else
    var f := outbox[|outbox| - 1];
    HistoryFacts(outbox[..|outbox| - 1]) + if f.HistoryAppended? then [f] else []
  }

  function RecordFacts(outbox: seq<Fact>, master: MasterId): seq<int> {
    if outbox == [] then [] else
    var f := outbox[|outbox| - 1];
    RecordFacts(outbox[..|outbox| - 1], master) + if f.RecordUpdated? && f.master == master then [f.ms] else []
  }

  ghost predicate HasProfiles(db: Db) {
    && (forall i | 0 <= i < |db.laps| :: db.laps[i].master in db.profiles)
    && (forall k | k in db.summaries :: k.0 in db.profiles)
    && (forall m | m in db.records :: m in db.profiles)
  }

  ghost predicate OneFactPerProfile(db: Db) {
    forall m :: ProfileFacts(db.outbox, m) == if m in db.profiles then 1 else 0
  }

  predicate Decreasing(values: seq<int>) {
    forall i, j | 0 <= i < j < |values| :: values[j] < values[i]
  }

  ghost predicate RecordsAnnounced(db: Db) {
    forall m :: var values := RecordFacts(db.outbox, m);
      && Decreasing(values)
      && (m in db.records <==> values != [])
      && (m in db.records ==> values[|values| - 1] == db.records[m].ms)
  }

  ghost predicate DbInv(db: Db) {
    HasProfiles(db) && OneFactPerProfile(db) && RecordsAnnounced(db)
  }

  lemma FactAppended(outbox: seq<Fact>, f: Fact)
    ensures forall m :: ProfileFacts(outbox + [f], m) ==
                        ProfileFacts(outbox, m) + if f.ProfileUpdated? && f.master == m then 1 else 0
    ensures HistoryFacts(outbox + [f]) == HistoryFacts(outbox) + if f.HistoryAppended? then [f] else []
    ensures forall m :: RecordFacts(outbox + [f], m) ==
                        RecordFacts(outbox, m) + if f.RecordUpdated? && f.master == m then [f.ms] else []
  {
    assert (outbox + [f])[..|outbox|] == outbox;
  }

  lemma EnsureKeeps(db: Db, master: MasterId, cause: EventId)
    requires DbInv(db)
    ensures var after := EnsureProfile(db, master, cause);
      && DbInv(after) && after.profiles == db.profiles + {master} && after.inbox == db.inbox
      && HistoryFacts(after.outbox) == HistoryFacts(db.outbox)
  {
    hide ProfileFacts, RecordFacts, HistoryFacts, Decreasing;
    var after, f := EnsureProfile(db, master, cause), ProfileUpdated(master, cause);
    FactAppended(db.outbox, f);
    forall m ensures RecordFacts(db.outbox + [f], m) == RecordFacts(db.outbox, m) {
      assert RecordFacts(db.outbox, m) + [] == RecordFacts(db.outbox, m);
    }
    assert HistoryFacts(after.outbox) == HistoryFacts(db.outbox);
  }

  lemma StoreSummaryKeeps(db: Db, session: SessionId, row: SummaryRow, cause: EventId)
    requires DbInv(db)
    ensures var after := StoreSummary(db, session, row, cause);
      && DbInv(after) && after.profiles == db.profiles + {row.master}
      && HistoryFacts(after.outbox) == HistoryFacts(db.outbox)
           + [HistoryAppended(row.master, session, Result(row.best, row.count), cause)]
      && after.inbox == db.inbox
  {
    hide DbInv, EnsureProfile, HistoryFacts;
    EnsureKeeps(db, row.master, cause);
    var db1 := EnsureProfile(db, row.master, cause);
    HistoryKeeps(db1, StoreSummary(db, session, row, cause), (row.master, session),
      HistoryAppended(row.master, session, Result(row.best, row.count), cause));
  }

  lemma HistoryKeeps(db: Db, after: Db, key: (MasterId, SessionId), f: Fact)
    requires DbInv(db) && f.HistoryAppended? && key.0 in db.profiles
      && after.summaries.Keys == db.summaries.Keys + {key}
    requires after == db.(summaries := after.summaries, outbox := db.outbox + [f])
    ensures DbInv(after) && HistoryFacts(after.outbox) == HistoryFacts(db.outbox) + [f]
  {
    hide ProfileFacts, RecordFacts, HistoryFacts;
    FactAppended(db.outbox, f);
  }

  lemma MastersGrow(session: SessionId, front: seq<SummaryRow>, row: SummaryRow)
    ensures Masters(SessionEnded(session, front + [row])) == Masters(SessionEnded(session, front)) + {row.master}
  {
    var rows := front + [row];
    assert rows[|front|] == row;
    forall m | m in Masters(SessionEnded(session, front)) ensures m in Masters(SessionEnded(session, rows)) {
      var i :| 0 <= i < |front| && front[i].master == m;
      assert rows[i].master == m;
    }
  }

  lemma FactsGrow(session: SessionId, front: seq<SummaryRow>, row: SummaryRow, cause: EventId)
    ensures RowFacts(session, front + [row], cause) ==
      RowFacts(session, front, cause) + [HistoryAppended(row.master, session, Result(row.best, row.count), cause)]
  {
  }

  lemma NoRows(session: SessionId, cause: EventId)
    ensures Masters(SessionEnded(session, [])) == {} && RowFacts(session, [], cause) == []
  {
  }

  lemma {:induction false} StoreSummariesKeeps(db: Db, session: SessionId, rows: seq<SummaryRow>, cause: EventId)
    requires DbInv(db)
    ensures var after := StoreSummaries(db, session, rows, cause);
      && DbInv(after) && after.profiles == db.profiles + Masters(SessionEnded(session, rows))
      && HistoryFacts(after.outbox) == HistoryFacts(db.outbox) + RowFacts(session, rows, cause)
      && after.inbox == db.inbox
  {
    hide DbInv, RowFacts, HistoryFacts, Masters, StoreSummary;
    if rows == [] {
      NoRows(session, cause);
    } else {
      var front, row := rows[..|rows| - 1], rows[|rows| - 1];
      assert rows == front + [row];
      StoreSummariesKeeps(db, session, front, cause);
      StoreSummaryKeeps(StoreSummaries(db, session, front, cause), session, row, cause);
      MastersGrow(session, front, row);
      FactsGrow(session, front, row, cause);
    }
  }

  lemma ConfirmRecordKeeps(db: Db, broken: Payload, cause: EventId)
    requires broken.RecordBroken? && DbInv(db) && broken.master in db.profiles
    ensures var after := ConfirmRecord(db, broken, cause);
      && DbInv(after) && after.profiles == db.profiles && after.inbox == db.inbox
      && HistoryFacts(after.outbox) == HistoryFacts(db.outbox)
  {
    hide ProfileFacts, HistoryFacts, RecordFacts, Decreasing, Candidate;
    var c := Candidate(db.laps, broken);
    var after := ConfirmRecord(db, broken, cause);
    if after != db {
      var f := RecordUpdated(broken.master, c.ms, c.setAt, cause);
      assert after.outbox == db.outbox + [f];
      FactAppended(db.outbox, f);
      forall m
        ensures Decreasing(RecordFacts(after.outbox, m)) && (m in after.records <==> RecordFacts(after.outbox, m) != [])
        ensures m in after.records ==>
          RecordFacts(after.outbox, m)[|RecordFacts(after.outbox, m)| - 1] == after.records[m].ms
      {
        RecordFactAppended(db, f, m);
      }
      assert RecordsAnnounced(after);
    }
  }

  lemma RecordFactAppended(db: Db, f: Fact, m: MasterId)
    requires f.RecordUpdated? && RecordsAnnounced(db)
    requires f.master in db.records ==> f.ms < db.records[f.master].ms
    ensures var values := RecordFacts(db.outbox + [f], m);
      && Decreasing(values)
      && (values != [] <==> m == f.master || m in db.records)
      && (m == f.master ==> values[|values| - 1] == f.ms)
      && (m != f.master && m in db.records ==> values[|values| - 1] == db.records[m].ms)
  {
    hide RecordFacts, ProfileFacts, HistoryFacts;
    FactAppended(db.outbox, f);
    assert Decreasing(RecordFacts(db.outbox, m));
  }

  lemma LapKeeps(db: Db, row: LapRow)
    requires DbInv(db) && row.master in db.profiles
    ensures DbInv(AppendLap(db, row)) && AppendLap(db, row) == db.(laps := AppendLap(db, row).laps)
  {
    hide ProfileFacts, RecordFacts, HistoryFacts, Decreasing, Collides;
  }

  lemma EffectKeeps(db: Db, env: Envelope)
    requires DbInv(db)
    ensures var after := Effect(db, env);
      && DbInv(after) && after.profiles == db.profiles + Masters(env.payload)
      && HistoryFacts(after.outbox) == HistoryFacts(db.outbox) + HistoryDue([env])
      && after.inbox == db.inbox
  {
    hide DbInv, StoreSummaries, HistoryFacts, AppendLap, ConfirmRecord, EnsureProfile;
    assert HistoryDue([env]) ==
      if env.payload.SessionEnded? then RowFacts(env.payload.session, env.payload.rows, env.id) else [] by {
      assert [env][..0] == [];
    }
    if env.payload.SessionEnded? {
      StoreSummariesKeeps(db, env.payload.session, env.payload.rows, env.id);
    } else {
      var p := env.payload;
      var db1 := EnsureProfile(db, p.master, env.id);
      EnsureKeeps(db, p.master, env.id);
      if p.RecordBroken? {
        ConfirmRecordKeeps(db1, p, env.id);
      } else if p.LapRecorded? {
        LapKeeps(db1, LapRow(p.master, p.session, p.number, p.ms, p.at, env.id));
      }
    }
  }

  lemma ProcessKeeps(db: Db, env: Envelope)
    requires DbInv(db)
    ensures DbInv(Process(db, env))
  {
    hide Effect;
    EffectKeeps(db, env);
  }

  lemma {:induction false} SummariesOnlyAppend(db: Db, session: SessionId, rows: seq<SummaryRow>, cause: EventId)
    ensures db.outbox <= StoreSummaries(db, session, rows, cause).outbox
  {
    if rows != [] {
      SummariesOnlyAppend(db, session, rows[..|rows| - 1], cause);
    }
  }

  /** No transaction removes or reorders a fact. */
  lemma OutboxGrows(db: Db, env: Envelope)
    ensures db.outbox <= Process(db, env).outbox
  {
    hide Collides, HistoryBest, Candidate;
    if env.payload.SessionEnded? {
      SummariesOnlyAppend(db, env.payload.session, env.payload.rows, env.id);
    }
  }

  /** Main theorem: after any sequence of deliveries, redeliveries and failed
      transactions, every stored row has a profile, each masterId seen was announced
      exactly once, the history facts are exactly those of the summary rows of the distinct
      session ends applied, in order, and the records announced per driver strictly decrease to the stored one. */
  lemma {:induction false} DeliveryRunInvariant(attempts: seq<Attempt>)
    ensures var db, done := Run(attempts), Applied(attempts);
      && DbInv(db)
      && db.inbox == Ids(done)
      && db.profiles == MastersSeen(done)
      && HistoryFacts(db.outbox) == HistoryDue(done)
  {
    if attempts != [] {
      var front, last := attempts[..|attempts| - 1], attempts[|attempts| - 1];
      DeliveryRunInvariant(front);
      var done := Applied(front);
      if last.commits && last.env.id !in Ids(done) {
        EffectKeeps(Run(front), last.env);
        AppliedGrows(done, last.env);
      }
    }
  }

  lemma AppliedGrows(done: seq<Envelope>, env: Envelope)
    ensures Ids(done + [env]) == Ids(done) + {env.id}
    ensures MastersSeen(done + [env]) == MastersSeen(done) + Masters(env.payload)
    ensures HistoryDue(done + [env]) == HistoryDue(done) + HistoryDue([env])
  {
    var all := done + [env];
    assert all[..|done|] == done && [env][..0] == [];
    assert all[|done|] == env;
    forall id | id in Ids(done) + {env.id} ensures id in Ids(all) {
      if id in Ids(done) {
        var i :| 0 <= i < |done| && done[i].id == id;
        assert all[i].id == id;
      }
    }
    forall m | m in MastersSeen(done) + Masters(env.payload) ensures m in MastersSeen(all) {
      if m in MastersSeen(done) {
        var i :| 0 <= i < |done| && m in Masters(done[i].payload);
        assert m in Masters(all[i].payload);
      } else {
        assert m in Masters(all[|done|].payload);
      }
    }
  }

  /** Redeliveries and failed transactions leave no trace: the run equals the run of
      its applied envelopes alone, each delivered once. */
  lemma {:induction false} RedeliveriesAreInvisible(attempts: seq<Attempt>)
    ensures Run(attempts) == Run(Once(Applied(attempts)))
    ensures forall i, j | 0 <= i < j < |Applied(attempts)| :: Applied(attempts)[i].id != Applied(attempts)[j].id
  {
    if attempts != [] {
      var front, last := attempts[..|attempts| - 1], attempts[|attempts| - 1];
      RedeliveriesAreInvisible(front);
      DeliveryRunInvariant(front);
      var done := Applied(front);
      if last.commits && last.env.id !in Ids(done) {
        var once := Once(done + [last.env]);
        assert once[..|once| - 1] == Once(done);
        forall i | 0 <= i < |done| ensures done[i].id != last.env.id {
          assert done[i].id in Ids(done);
        }
      }
    }
  }

  function Once(envs: seq<Envelope>): (r: seq<Attempt>)
    ensures |r| == |envs|
  {
    seq(|envs|, i requires 0 <= i < |envs| => Attempt(envs[i], true))
  }

  // ----- What is stored is what was delivered -------------------------------------------------

  predicate LapFrom(row: LapRow, env: Envelope) {
    env == Envelope(row.source, LapRecorded(row.master, row.session, row.number, row.ms, row.at))
  }

  predicate HasLapRow(laps: seq<LapRow>, p: Payload)
    requires p.LapRecorded?
  {
    exists i :: 0 <= i < |laps| && laps[i].master == p.master && laps[i].session == p.session
      && laps[i].number == p.number
  }

  /** The first row of the driver carries this result. */
  predicate RowFrom(master: MasterId, result: Result, rows: seq<SummaryRow>) {
    exists i :: 0 <= i < |rows| && IsFirstRow(master, rows, i) && Result(rows[i].best, rows[i].count) == result
  }

  predicate IsFirstRow(master: MasterId, rows: seq<SummaryRow>, i: nat)
    requires i < |rows|
  {
    rows[i].master == master && forall j | 0 <= j < i :: rows[j].master != master
  }

  predicate NamesLap(env: Envelope, master: MasterId, session: SessionId, number: int) {
    env.payload.LapRecorded? && env.payload.master == master && env.payload.session == session
      && env.payload.number == number
  }

  predicate NamesSummary(env: Envelope, key: (MasterId, SessionId)) {
    env.payload.SessionEnded? && env.payload.session == key.1
    && exists i :: 0 <= i < |env.payload.rows| && env.payload.rows[i].master == key.0
  }

  predicate SummaryFrom(key: (MasterId, SessionId), result: Result, env: Envelope) {
    env.payload.SessionEnded? && env.payload.session == key.1 && RowFrom(key.0, result, env.payload.rows)
  }

  /** The row is the content of the first event that names its key. */
  ghost predicate Delivered(row: LapRow, done: seq<Envelope>) {
    exists k :: 0 <= k < |done| && LapFrom(row, done[k]) && NoneNamesLap(done[..k], row)
  }

  predicate NoneNamesLap(done: seq<Envelope>, row: LapRow) {
    forall j | 0 <= j < |done| :: !NamesLap(done[j], row.master, row.session, row.number)
  }

  lemma StaysDelivered(row: LapRow, done: seq<Envelope>, env: Envelope)
    ensures Delivered(row, done) || (LapFrom(row, env) && NoneNamesLap(done, row)) ==> Delivered(row, done + [env])
  {
    hide NoneNamesLap, LapFrom;
    var all := done + [env];
    assert all[|done|] == env && all[..|done|] == done;
    if k :| 0 <= k < |done| && LapFrom(row, done[k]) && NoneNamesLap(done[..k], row) {
      assert all[k] == done[k] && all[..k] == done[..k];
    }
  }

  ghost predicate LapsFaithful(laps: seq<LapRow>, done: seq<Envelope>) {
    && (forall i | 0 <= i < |laps| :: Delivered(laps[i], done))
    && (forall k | 0 <= k < |done| && done[k].payload.LapRecorded? :: HasLapRow(laps, done[k].payload))
  }

  /** The result is what the first session end naming the key said of it. */
  ghost predicate SummaryDelivered(key: (MasterId, SessionId), result: Result, done: seq<Envelope>) {
    exists k :: 0 <= k < |done| && SummaryFrom(key, result, done[k]) && NoneNamesSummary(done[..k], key)
  }

  predicate NoneNamesSummary(done: seq<Envelope>, key: (MasterId, SessionId)) {
    forall j | 0 <= j < |done| :: !NamesSummary(done[j], key)
  }

  lemma SummaryStaysDelivered(key: (MasterId, SessionId), result: Result, done: seq<Envelope>, env: Envelope)
    ensures SummaryDelivered(key, result, done) || (SummaryFrom(key, result, env) && NoneNamesSummary(done, key)) ==>
      SummaryDelivered(key, result, done + [env])
  {
    hide NoneNamesSummary, SummaryFrom;
    var all := done + [env];
    assert all[|done|] == env && all[..|done|] == done;
    if k :| 0 <= k < |done| && SummaryFrom(key, result, done[k]) && NoneNamesSummary(done[..k], key) {
      assert all[k] == done[k] && all[..k] == done[..k];
    }
  }

  ghost predicate SummariesFaithful(summaries: map<(MasterId, SessionId), Result>, done: seq<Envelope>) {
    && (forall key | key in summaries :: SummaryDelivered(key, summaries[key], done))
    && (forall k, key | 0 <= k < |done| && NamesSummary(done[k], key) :: key in summaries)
  }

  lemma OneSummary(db: Db, session: SessionId, row: SummaryRow, cause: EventId)
    ensures var key := (row.master, session);
      StoreSummary(db, session, row, cause).summaries ==
        if key in db.summaries then db.summaries else db.summaries[key := Result(row.best, row.count)]
  {
  }

  type Summaries = map<(MasterId, SessionId), Result>

  /** What the summary loop may do: new keys are exactly those of its rows, an old row is
      never rewritten, and a new one carries the values of a row that names it. */
  ghost predicate Extended(before: Summaries, after: Summaries, session: SessionId, rows: seq<SummaryRow>) {
    && (forall i | 0 <= i < |rows| :: (rows[i].master, session) in after)
    && (forall key | key in before :: key in after && after[key] == before[key])
    && (forall key | key in after && key !in before :: key.1 == session && RowFrom(key.0, after[key], rows))
  }

  lemma RowFromGrows(master: MasterId, result: Result, rows: seq<SummaryRow>, row: SummaryRow)
    ensures RowFrom(master, result, rows) ==> RowFrom(master, result, rows + [row])
    ensures row.master == master && Result(row.best, row.count) == result
      && (forall j | 0 <= j < |rows| :: rows[j].master != master)
      ==> RowFrom(master, result, rows + [row])
  {
    var all := rows + [row];
    assert all[|rows|] == row;
    if row.master == master && forall j | 0 <= j < |rows| :: rows[j].master != master {
      assert IsFirstRow(master, all, |rows|);
    }
    if i :| 0 <= i < |rows| && IsFirstRow(master, rows, i) && Result(rows[i].best, rows[i].count) == result {
      assert all[i] == rows[i];
      assert IsFirstRow(master, all, i);
    }
  }

  lemma ExtendedStep(before: Summaries, mid: Summaries, session: SessionId, rows: seq<SummaryRow>, row: SummaryRow)
    requires Extended(before, mid, session, rows)
    ensures var key := (row.master, session);
      Extended(before, if key in mid then mid else mid[key := Result(row.best, row.count)], session, rows + [row])
  {
    hide RowFrom;
    var k := (row.master, session);
    var after := if k in mid then mid else mid[k := Result(row.best, row.count)];
    forall key | key in after && key !in before ensures key.1 == session && RowFrom(key.0, after[key], rows + [row]) {
      RowFromGrows(key.0, after[key], rows, row);
      if key !in mid {
        forall j | 0 <= j < |rows| ensures rows[j].master != key.0 {
          assert (rows[j].master, session) in mid;
        }
      }
    }
  }

  lemma {:induction false} SummariesStored(db: Db, session: SessionId, rows: seq<SummaryRow>, cause: EventId)
    ensures Extended(db.summaries, StoreSummaries(db, session, rows, cause).summaries, session, rows)
  {
    hide StoreSummary;
    if rows != [] {
      var front, row := rows[..|rows| - 1], rows[|rows| - 1];
      var mid := StoreSummaries(db, session, front, cause);
      SummariesStored(db, session, front, cause);
      OneSummary(mid, session, row, cause);
      ExtendedStep(db.summaries, mid.summaries, session, front, row);
      assert rows == front + [row];
    }
  }

  lemma KnownLapStep(laps: seq<LapRow>, done: seq<Envelope>, env: Envelope)
    requires LapsFaithful(laps, done) && (env.payload.LapRecorded? ==> HasLapRow(laps, env.payload))
    ensures LapsFaithful(laps, done + [env])
  {
    hide Delivered;
    forall i | 0 <= i < |laps| ensures Delivered(laps[i], done + [env]) {
      StaysDelivered(laps[i], done, env);
    }
  }

  lemma NewLapStep(laps: seq<LapRow>, done: seq<Envelope>, row: LapRow, env: Envelope)
    requires LapsFaithful(laps, done) && LapFrom(row, env) && !Collides(laps, row)
    ensures LapsFaithful(laps + [row], done + [env])
  {
    hide Delivered, LapFrom;
    var all, more := done + [env], laps + [row];
    SameLap(row, env);
    NewKey(laps, done, row);
    forall i | 0 <= i < |more| ensures Delivered(more[i], all) {
      StaysDelivered(more[i], done, env);
    }
    assert more[|laps|] == row;
    forall k | 0 <= k < |all| && all[k].payload.LapRecorded? ensures HasLapRow(more, all[k].payload) {
      if k < |done| {
        var q := done[k].payload;
        var i :| 0 <= i < |laps| && laps[i].master == q.master && laps[i].session == q.session
          && laps[i].number == q.number;
        assert more[i] == laps[i];
      }
    }
  }

  /** A row that does not collide is the first of its key. */
  lemma NewKey(laps: seq<LapRow>, done: seq<Envelope>, row: LapRow)
    requires LapsFaithful(laps, done) && !Collides(laps, row)
    ensures NoneNamesLap(done, row)
  {
    hide Delivered;
    forall j | 0 <= j < |done| ensures !NamesLap(done[j], row.master, row.session, row.number) {
      if done[j].payload.LapRecorded? {
        assert HasLapRow(laps, done[j].payload);
      }
    }
  }

  lemma SameLap(row: LapRow, env: Envelope)
    requires LapFrom(row, env)
    ensures env.payload.LapRecorded? && env.payload.master == row.master
    ensures env.payload.session == row.session && env.payload.number == row.number && env.id == row.source
  {
  }

  /** A collision of a fresh envelope is a collision of the primary key. */
  lemma CollisionIsKnown(laps: seq<LapRow>, done: seq<Envelope>, row: LapRow, env: Envelope)
    requires LapsFaithful(laps, done) && LapFrom(row, env) && env.id !in Ids(done) && Collides(laps, row)
    ensures HasLapRow(laps, env.payload)
  {
    var i :| 0 <= i < |laps| &&
      ((laps[i].master == row.master && laps[i].session == row.session && laps[i].number == row.number)
        || laps[i].source == row.source);
    assert Delivered(laps[i], done);
    var k :| 0 <= k < |done| && LapFrom(laps[i], done[k]) && NoneNamesLap(done[..k], laps[i]);
    assert done[k].id in Ids(done);
  }

  lemma LapStep(laps: seq<LapRow>, done: seq<Envelope>, env: Envelope)
    requires LapsFaithful(laps, done) && env.id !in Ids(done)
    ensures LapsFaithful(
      if env.payload.LapRecorded? then
        var p := env.payload;
        var row := LapRow(p.master, p.session, p.number, p.ms, p.at, env.id);
        if Collides(laps, row) then laps else laps + [row]
      else laps, done + [env])
  {
    hide LapsFaithful, Collides, HasLapRow;
    if env.payload.LapRecorded? {
      var p := env.payload;
      var row := LapRow(p.master, p.session, p.number, p.ms, p.at, env.id);
      if Collides(laps, row) {
        CollisionIsKnown(laps, done, row, env);
        KnownLapStep(laps, done, env);
      } else {
        NewLapStep(laps, done, row, env);
      }
    } else {
      KnownLapStep(laps, done, env);
    }
  }

  lemma SummaryStep(db: Db, done: seq<Envelope>, env: Envelope)
    requires SummariesFaithful(db.summaries, done)
    ensures SummariesFaithful(Effect(db, env).summaries, done + [env])
  {
    hide StoreSummaries, RowFrom, Collides, HistoryBest, SummaryDelivered, NamesSummary;
    var after, all := Effect(db, env).summaries, done + [env];
    if env.payload.SessionEnded? {
      SummariesStored(db, env.payload.session, env.payload.rows, env.id);
    }
    forall key | key in after ensures SummaryDelivered(key, after[key], all) {
      SummaryStaysDelivered(key, after[key], done, env);
      if key !in db.summaries {
        assert NoneNamesSummary(done, key);
      }
    }
    forall k, key | 0 <= k < |all| && NamesSummary(all[k], key) ensures key in after {
      if k == |done| {
        NamedIsStored(db, env, key);
      }
    }
  }

  lemma NamedIsStored(db: Db, env: Envelope, key: (MasterId, SessionId))
    requires NamesSummary(env, key)
    ensures key in Effect(db, env).summaries
  {
    hide StoreSummaries;
    SummariesStored(db, env.payload.session, env.payload.rows, env.id);
    var i :| 0 <= i < |env.payload.rows| && env.payload.rows[i].master == key.0;
    assert (env.payload.rows[i].master, env.payload.session) == key;
  }

  /** Driver's history is faithful after any run: every stored lap is the content of the first
      applied lap event with its (driver, session, number), and every applied lap's key is
      stored; every stored summary is the first row for its (driver, session) of the first
      applied session end that has one, and every such key is stored. */
  lemma {:induction false} HistoryIsFaithful(attempts: seq<Attempt>)
    ensures LapsFaithful(Run(attempts).laps, Applied(attempts))
    ensures SummariesFaithful(Run(attempts).summaries, Applied(attempts))
  {
    hide LapsFaithful, SummariesFaithful;
    if attempts == [] {
      NothingIsFaithful();
    } else {
      var front, last := attempts[..|attempts| - 1], attempts[|attempts| - 1];
      HistoryIsFaithful(front);
      DeliveryRunInvariant(front);
      var db, done := Run(front), Applied(front);
      if last.commits && last.env.id !in Ids(done) {
        LapStep(db.laps, done, last.env);
        SummaryStep(db, done, last.env);
        if last.env.payload.SessionEnded? {
          StoreSummariesFrame(db, last.env.payload.session, last.env.payload.rows, last.env.id);
        }
      }
    }
  }

  lemma NothingIsFaithful()
    ensures LapsFaithful([], []) && SummariesFaithful(map[], [])
  {
  }
}
