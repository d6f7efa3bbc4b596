/** The Identity service: one masterId per email, for ever. Resolve-or-mint, erasure with
    tombstone and suppression, and the transactions that tie them to inbox and outbox. */
module Identity {
  import opened Base

  type EventId = string
  type RequestId = string
  type Email = string
  type MasterId = string

  /** How the service reads text: lower-casing, rune by rune, and the digest of a key. Only two
      facts are used: lower-casing twice is lower-casing once, and it neither makes nor removes
      white space. Collisions of the digest are allowed. */
  datatype TextRules = TextRules(lower: char -> char, digest: string -> string) {
    ghost predicate Ok() {
      forall c :: lower(lower(c)) == lower(c) && (IsSpace(lower(c)) <==> IsSpace(c))
    }
  }

  type Text = t: TextRules | t.Ok() witness TextRules(LowerAscii, (s: string) => s)

  function LowerAscii(c: char): char {
    if 'A' <= c <= 'Z' then ((c as int) + 32) as char else c
  }

  // ----- The natural key ----------------------------------------------------------------

  function ToLower(text: Text, s: string): (r: string)
    ensures |r| == |s|
  {
    seq(|s|, i requires 0 <= i < |s| => text.lower(s[i]))
  }

  function NormalizeEmail(text: Text, email: string): string { ToLower(text, TrimSpace(email)) }

  lemma {:induction false} TrimLeftIsSuffix(s: string)
    ensures |TrimLeft(s)| <= |s| && TrimLeft(s) == s[|s| - |TrimLeft(s)|..]
    ensures TrimLeft(s) != "" ==> !IsSpace(TrimLeft(s)[0])
    ensures (s == "" || !IsSpace(s[0])) ==> TrimLeft(s) == s
  {
    if s != "" && IsSpace(s[0]) {
      TrimLeftIsSuffix(s[1..]);
    }
  }

  lemma {:induction false} TrimRightIsPrefix(s: string)
    ensures |TrimRight(s)| <= |s| && TrimRight(s) == s[..|TrimRight(s)|]
    ensures TrimRight(s) != "" ==> !IsSpace(TrimRight(s)[|TrimRight(s)| - 1])
    ensures (s == "" || !IsSpace(s[|s| - 1])) ==> TrimRight(s) == s
  {
    if s != "" && IsSpace(s[|s| - 1]) {
      TrimRightIsPrefix(s[..|s| - 1]);
    }
  }

  /** The trimmed text neither starts nor ends with white space. */
  predicate Trimmed(s: string) {
    s == "" || (!IsSpace(s[0]) && !IsSpace(s[|s| - 1]))
  }

  lemma TrimSpaceTrims(s: string)
    ensures Trimmed(TrimSpace(s))
    ensures Trimmed(s) ==> TrimSpace(s) == s
  {
    TrimLeftIsSuffix(s);
    TrimRightIsPrefix(TrimLeft(s));
  }

  lemma LowerKeepsSpaces(text: Text, s: string)
    ensures Trimmed(ToLower(text, s)) <==> Trimmed(s)
    ensures ToLower(text, ToLower(text, s)) == ToLower(text, s)
  {
    var low := ToLower(text, s);
    if s != "" {
      assert low[0] == text.lower(s[0]) && low[|s| - 1] == text.lower(s[|s| - 1]);
    }
  }

  /** Normalizing twice is normalizing once, so the key stored is the key looked up. */
  lemma NormalizeIsIdempotent(text: Text, email: string)
    ensures NormalizeEmail(text, NormalizeEmail(text, email)) == NormalizeEmail(text, email)
  {
    TrimSpaceTrims(email);
    LowerKeepsSpaces(text, TrimSpace(email));
    TrimSpaceTrims(NormalizeEmail(text, email));
  }

  lemma {:induction false} TrimLeftSkips(pad: string, s: string)
    requires AllSpace(pad)
    ensures TrimLeft(pad + s) == TrimLeft(s)
  {
    if pad == "" {
      assert pad + s == s;
    } else {
      assert (pad + s)[1..] == pad[1..] + s;
      TrimLeftSkips(pad[1..], s);
    }
  }

  lemma {:induction false} TrimRightSkips(s: string, pad: string)
    requires AllSpace(pad)
    ensures TrimRight(s + pad) == TrimRight(s)
  {
    if pad == "" {
      assert s + pad == s;
    } else {
      assert (s + pad)[..|s + pad| - 1] == s + pad[..|pad| - 1];
      TrimRightSkips(s, pad[..|pad| - 1]);
    }
  }

  lemma {:induction false} TrimLeftBefore(s: string, pad: string)
    requires !AllSpace(s)
    ensures TrimLeft(s + pad) == TrimLeft(s) + pad
  {
    if IsSpace(s[0]) {
      assert (s + pad)[1..] == s[1..] + pad;
      assert !AllSpace(s[1..]);
      TrimLeftBefore(s[1..], pad);
    }
  }

  lemma PaddingIsTrimmed(before: string, email: string, after: string)
    requires AllSpace(before) && AllSpace(after)
    ensures TrimSpace(before + email + after) == TrimSpace(email)
  {
    TrimLeftSkips(before, email + after);
    assert before + email + after == before + (email + after);
    if AllSpace(email) {
      TrimLeftOfSpace(email);
      TrimLeftOfSpace(email + after);
    } else {
      TrimLeftBefore(email, after);
      TrimRightSkips(TrimLeft(email), after);
    }
  }

  /** Case and surrounding white space never make a second identity: addresses that are the
      same in lower case have the same key, however they are padded. */
  lemma VariantsNormalizeAlike(text: Text, before: string, email: string, after: string, other: string)
    requires AllSpace(before) && AllSpace(after) && ToLower(text, email) == ToLower(text, other)
    ensures NormalizeEmail(text, before + email + after) == NormalizeEmail(text, other)
  {
    PaddingIsTrimmed(before, email, after);
    TrimLower(text, email);
    TrimLower(text, other);
  }

  lemma TrimLower(text: Text, s: string)
    ensures TrimSpace(ToLower(text, s)) == ToLower(text, TrimSpace(s))
  {
    TrimLeftLower(text, s);
    TrimRightLower(text, TrimLeft(s));
  }

  lemma {:induction false} TrimLeftLower(text: Text, s: string)
    ensures TrimLeft(ToLower(text, s)) == ToLower(text, TrimLeft(s))
  {
    if s != "" {
      TrimLeftLower(text, s[1..]);
      assert ToLower(text, s)[0] == text.lower(s[0]);
      assert ToLower(text, s)[1..] == ToLower(text, s[1..]);
    }
  }

  lemma {:induction false} TrimRightLower(text: Text, s: string)
    ensures TrimRight(ToLower(text, s)) == ToLower(text, TrimRight(s))
  {
    if s != "" {
      TrimRightLower(text, s[..|s| - 1]);
      assert ToLower(text, s)[|s| - 1] == text.lower(s[|s| - 1]);
      assert ToLower(text, s)[..|s| - 1] == ToLower(text, s[..|s| - 1]);
    }
  }

  // What the key is, character by character.

  /** `u` is the address without the white space around it. */
  ghost predicate Core(email: string, u: string) {
    Trimmed(u) && exists before, after :: AllSpace(before) && AllSpace(after) && email == before + u + after
  }

  /** The key spells the address without its padding, every character in lower case. */
  ghost predicate Spells(text: Text, email: string, key: string) {
    exists u :: Core(email, u) && |key| == |u| && forall i | 0 <= i < |u| :: key[i] == text.lower(u[i])
  }

  /** Equal but for case, character by character. */
  predicate SameLetters(text: Text, u: string, v: string) {
    |u| == |v| && forall i | 0 <= i < |u| :: text.lower(u[i]) == text.lower(v[i])
  }

  /** Two addresses are one: without their padding they agree, character for character, in
      lower case. */
  ghost predicate SameAddress(text: Text, a: string, b: string) {
    exists u, v :: Core(a, u) && Core(b, v) && SameLetters(text, u, v)
  }

  lemma CoreIsTrimmed(email: string, u: string)
    ensures Core(email, u) <==> u == TrimSpace(email)
    ensures TrimSpace(email) == "" ==> AllSpace(email)
  {
    hide IsSpace, AllSpace, TrimSpace;
    TrimmedIsCore(email);
    if Core(email, u) {
      var before, after :| AllSpace(before) && AllSpace(after) && email == before + u + after;
      PaddingIsTrimmed(before, u, after);
      TrimSpaceTrims(u);
    }
  }

  lemma TrimmedIsCore(email: string)
    ensures Core(email, TrimSpace(email))
    ensures TrimSpace(email) == "" ==> AllSpace(email)
  {
    hide IsSpace, TrimLeft, TrimRight, AllSpace, Core, Trimmed;
    TrimSpaceTrims(email);
    var before := TrimLeftParts(email);
    var after := TrimRightParts(TrimLeft(email));
    IsCore(before, TrimSpace(email), after);
    assert email == before + TrimSpace(email) + after;
  }

  lemma IsCore(before: string, u: string, after: string)
    requires AllSpace(before) && AllSpace(after) && Trimmed(u)
    ensures Core(before + u + after, u)
    ensures u == "" ==> AllSpace(before + u + after)
  {
    hide IsSpace;
  }

  lemma NoSpaceIsSpace()
    ensures AllSpace("")
  {
  }

  lemma SpaceFront(c: char, s: string)
    requires IsSpace(c) && AllSpace(s)
    ensures AllSpace([c] + s)
  {
    hide IsSpace;
  }

  lemma SpaceBack(s: string, c: char)
    requires IsSpace(c) && AllSpace(s)
    ensures AllSpace(s + [c])
  {
    hide IsSpace;
  }

  lemma {:induction false} TrimLeftParts(s: string) returns (before: string)
    ensures s == before + TrimLeft(s) && AllSpace(before)
  {
    hide IsSpace, AllSpace;
    before := "";
    NoSpaceIsSpace();
    if s != "" && IsSpace(s[0]) {
      before := TrimLeftParts(s[1..]);
      SpaceFront(s[0], before);
      before := [s[0]] + before;
    }
  }

  lemma {:induction false} TrimRightParts(s: string) returns (after: string)
    ensures s == TrimRight(s) + after && AllSpace(after)
  {
    hide IsSpace, AllSpace;
    after := "";
    NoSpaceIsSpace();
    if s != "" && IsSpace(s[|s| - 1]) {
      after := TrimRightParts(s[..|s| - 1]);
      SpaceBack(after, s[|s| - 1]);
      after := after + [s[|s| - 1]];
    }
  }

  /** The key is the one text that spells the address; it is blank exactly when the address
      is all white space. */
  lemma KeySpellsTheAddress(text: Text, email: string, key: string)
    ensures key == NormalizeEmail(text, email) <==> Spells(text, email, key)
    ensures NormalizeEmail(text, email) == "" <==> AllSpace(email)
  {
    var u := TrimSpace(email);
    CoreIsTrimmed(email, u);
    if Spells(text, email, key) {
      var v :| Core(email, v) && |key| == |v| && forall i | 0 <= i < |v| :: key[i] == text.lower(v[i]);
      CoreIsTrimmed(email, v);
      assert key == ToLower(text, u);
    }
    if AllSpace(email) {
      TrimLeftOfSpace(email);
    }
  }

  lemma SameLower(text: Text, u: string, v: string)
    ensures ToLower(text, u) == ToLower(text, v) <==> SameLetters(text, u, v)
  {
    var a, b := ToLower(text, u), ToLower(text, v);
    assert forall i | 0 <= i < |u| :: a[i] == text.lower(u[i]);
    assert forall i | 0 <= i < |v| :: b[i] == text.lower(v[i]);
  }

  /** Two addresses share a key if and only if they are one address. */
  lemma SameKeyExactly(text: Text, a: string, b: string)
    ensures NormalizeEmail(text, a) == NormalizeEmail(text, b) <==> SameAddress(text, a, b)
  {
    hide Core, ToLower, TrimSpace;
    CoreIsTrimmed(a, TrimSpace(a));
    CoreIsTrimmed(b, TrimSpace(b));
    SameLower(text, TrimSpace(a), TrimSpace(b));
    if SameAddress(text, a, b) {
      var u, v :| Core(a, u) && Core(b, v) && SameLetters(text, u, v);
      CoreIsTrimmed(a, u);
      CoreIsTrimmed(b, v);
    }
  }

  // ----- The tables and the committed transactions --------------------------------------------

  datatype HeldLookup = HeldLookup(request: RequestId, hash: string)

  /** Outgoing facts, in the order they are enqueued. */
  datatype Fact =
    | Resolved(request: RequestId, email: Email, master: MasterId, cause: EventId)
    | Erased(request: RequestId, master: MasterId, cause: EventId)

  datatype Db = Db(
    inbox: set<EventId>,
    identities: map<Email, MasterId>,
    tombstones: set<MasterId>,
    suppressed: set<string>,
    held: seq<HeldLookup>,
    outbox: seq<Fact>)

  const EMPTY := Db({}, map[], {}, {}, [], [])

  /** The row insert fails on the primary key: the whole transaction rolls back. */
  predicate MintFails(db: Db, email: Email, candidate: MasterId) {
    email !in db.identities && candidate in db.identities.Values
  }

  function Lookup(text: Text, db: Db, id: EventId, request: RequestId, raw: string, candidate: MasterId): Db {
    var email := NormalizeEmail(text, raw);
    if email == "" || id in db.inbox then db
    else if text.digest(email) in db.suppressed then
      db.(held := db.held + [HeldLookup(request, text.digest(email))], inbox := db.inbox + {id})
    else if MintFails(db, email, candidate) then db
    else
      var master := if email in db.identities then db.identities[email] else candidate;
      db.(identities := db.identities[email := master],
          outbox := db.outbox + [Resolved(request, email, master, id)],
          inbox := db.inbox + {id})
  }

  /** The emails whose row carries the id: at most one. */
  function EmailsOf(identities: map<Email, MasterId>, master: MasterId): set<Email> {
    set e | e in identities && identities[e] == master
  }

  function Erase(text: Text, db: Db, id: EventId, request: RequestId, master: MasterId): Db {
    if master == "" || id in db.inbox then db
    else
      var gone := EmailsOf(db.identities, master);
      db.(identities := db.identities - gone,
          suppressed := db.suppressed + (set e | e in gone :: text.digest(NormalizeEmail(text, e))),
          tombstones := db.tombstones + {master},
          outbox := db.outbox + [Erased(request, master, id)],
          inbox := db.inbox + {id})
  }

  // ----- The service as it runs ----------------------------------------------------------------

  datatype Outcome = Parked | Failed | Duplicate | Held | Answered(master: MasterId, minted: bool)

  class Service {
    const text: Text
    var inbox: set<EventId>
    var identities: map<Email, MasterId>
    var tombstones: set<MasterId>
    var suppressed: set<string>
    var held: seq<HeldLookup>
    var outbox: seq<Fact>

    function State(): Db
      reads this
    {
      Db(inbox, identities, tombstones, suppressed, held, outbox)
    }

    /** master_id is the primary key. */
    predicate Valid()
      reads this
    {
      Injective(identities)
    }

    constructor (text: Text)
      ensures this.text == text && Valid() && State() == EMPTY
    {
      this.text := text;
      inbox, identities, tombstones, suppressed, held, outbox := {}, map[], {}, {}, [], [];
    }

    /** Insert if absent, then read back. None is a primary-key violation. */
    method ResolveOrMint(email: Email, candidate: MasterId) returns (answer: Option<(MasterId, bool)>)
      requires Valid()
      modifies this`identities
      ensures Valid()
      ensures answer.None? <==> MintFails(old(State()), email, candidate)
      ensures answer.None? ==> identities == old(identities)
      ensures answer.Some? ==> email in identities && identities == old(identities)[email := answer.value.0]
      ensures answer.Some? ==>
        answer.value.0 == if email in old(identities) then old(identities)[email] else candidate
      ensures answer.Some? ==> (answer.value.1 <==> email !in old(identities))
    {
      var inserted := email !in identities;
      if inserted {
        if candidate in identities.Values {
          return None;
        }
        identities := identities[email := candidate];
      } else {
        assert identities == identities[email := identities[email]];
      }
      answer := Some((identities[email], inserted));
    }

    /** One lookup delivery: normalize, park a blank key, then the whole transaction. */
    method ProcessLookup(id: EventId, request: RequestId, raw: string, candidate: MasterId, commits: bool)
      returns (outcome: Outcome)
      requires Valid()
      modifies this
      ensures Valid()
      ensures State() == if commits then Lookup(text, old(State()), id, request, raw, candidate) else old(State())
      ensures outcome.Parked? <==> AllSpace(raw)
      ensures outcome.Parked? <==> NormalizeEmail(text, raw) == ""
      ensures outcome.Duplicate? <==> !outcome.Parked? && commits && id in old(inbox)
      ensures outcome.Held? <==>
        !outcome.Parked? && commits && id !in old(inbox) && text.digest(NormalizeEmail(text, raw)) in old(suppressed)
      ensures outcome.Failed? <==>
        && !outcome.Parked?
        && (|| !commits
            || (id !in old(inbox) && !outcome.Held? && MintFails(old(State()), NormalizeEmail(text, raw), candidate)))
      ensures outcome.Answered? ==>
        outbox == old(outbox) + [Resolved(request, NormalizeEmail(text, raw), outcome.master, id)]
      ensures outcome.Answered? ==>
        outbox[|old(outbox)|].email in identities && Spells(text, raw, outbox[|old(outbox)|].email)
      ensures outcome.Answered? ==> (outcome.minted <==> identities != old(identities))
      ensures outcome.Answered? ==>
        var key := NormalizeEmail(text, raw);
        && outcome.master == (if key in old(identities) then old(identities)[key] else candidate)
        && (outcome.minted <==> key !in old(identities))
      ensures outcome.Held? ==> outbox == old(outbox) && identities == old(identities)
      ensures outcome.Held? ==>
        held == old(held) + [HeldLookup(request, text.digest(NormalizeEmail(text, raw)))]
    {
      hide Spells, AllSpace, IsSpace;
      var email := NormalizeEmail(text, raw);
      KeySpellsTheAddress(text, raw, email);
      if email == "" {
        return Parked;
      }
      if !commits {
        return Failed;
      }
      if id in inbox {
        return Duplicate;
      }
      NormalizeIsIdempotent(text, raw);
      var emailHash := text.digest(NormalizeEmail(text, email));
      if emailHash in suppressed {
        held := held + [HeldLookup(request, emailHash)];
        inbox := inbox + {id};
        return Held;
      }
      var answer := ResolveOrMint(email, candidate);
      match answer
      case None => return Failed;
      case Some((master, minted)) =>
        if minted {
          assert email in identities.Keys && email !in old(identities).Keys;
        } else {
          assert identities == old(identities);
        }
        outbox := outbox + [Resolved(request, email, master, id)];
        inbox := inbox + {id};
        return Answered(master, minted);
    }

    /** LookupEmail: at most one row carries the id. */
    method LookupEmail(master: MasterId) returns (email: Option<Email>)
      requires Valid()
      ensures EmailsOf(identities, master) == if email.Some? then {email.value} else {}
    {
      if e :| e in identities && identities[e] == master {
        email := Some(e);
      } else {
        email := None;
      }
    }

    /** One erasure delivery: suppress and delete the row if there is one, leave a
        tombstone either way, acknowledge, mark the inbox. */
    method ProcessErasure(id: EventId, request: RequestId, master: MasterId, commits: bool) returns (outcome: Outcome)
      requires Valid()
      modifies this
      ensures Valid()
      ensures State() == if commits then Erase(text, old(State()), id, request, master) else old(State())
      ensures outcome.Failed? <==> master == "" || !commits
      ensures outcome.Duplicate? <==> master != "" && commits && id in old(inbox)
      ensures !outcome.Failed? && !outcome.Duplicate? ==>
        master in tombstones && master !in identities.Values && outbox == old(outbox) + [Erased(request, master, id)]
      ensures !outcome.Failed? && !outcome.Duplicate? ==> forall e | e in old(identities) ::
        if old(identities)[e] == master then e !in identities && text.digest(NormalizeEmail(text, e)) in suppressed
        else e in identities && identities[e] == old(identities)[e]
    {
      if master == "" || !commits {
        return Failed;
      }
      if id in inbox {
        return Duplicate;
      }
      var email := LookupEmail(master);
      if email.Some? {
        suppressed := suppressed + {text.digest(NormalizeEmail(text, email.value))};
        identities := identities - {email.value};
      } else {
        assert identities - {} == identities;
        assert suppressed + {} == suppressed;
      }
      assert master !in identities.Values;
      tombstones := tombstones + {master};
      outbox := outbox + [Erased(request, master, id)];
      inbox := inbox + {id};
      return Answered(master, false);
    }
  }

  // ----- Every run --------------------------------------------------------------------------------

  datatype Step =
    | LookupStep(id: EventId, request: RequestId, email: string, candidate: MasterId, commits: bool)
    | EraseStep(id: EventId, request: RequestId, master: MasterId, commits: bool)

  function Do(text: Text, db: Db, step: Step): Db {
    if !step.commits then db else
    match step
    case LookupStep(id, request, email, candidate, _) => Lookup(text, db, id, request, email, candidate)
    case EraseStep(id, request, master, _) => Erase(text, db, id, request, master)
  }

  function Exec(text: Text, steps: seq<Step>): Db {
    if steps == [] then EMPTY else Do(text, Exec(text, steps[..|steps| - 1]), steps[|steps| - 1])
  }

  /** The step inserts a new row. */
  predicate Mints(text: Text, db: Db, step: Step) {
    step.LookupStep? && step.commits &&
    var email := NormalizeEmail(text, step.email);
    && email != "" && step.id !in db.inbox && text.digest(email) !in db.suppressed
    && email !in db.identities && step.candidate !in db.identities.Values
  }

  /** The generator's promise, asked of minting steps only: the id minted was not erased. A
      clash with a live id is caught by the primary key. */
  predicate FreshStep(text: Text, db: Db, step: Step) {
    Mints(text, db, step) ==> step.candidate !in db.tombstones
  }

  predicate Fresh(text: Text, steps: seq<Step>) {
    steps == [] ||
    (Fresh(text, steps[..|steps| - 1]) && FreshStep(text, Exec(text, steps[..|steps| - 1]), steps[|steps| - 1]))
  }

  predicate Injective(identities: map<Email, MasterId>) {
    forall e, f | e in identities && f in identities && identities[e] == identities[f] :: e == f
  }

  /** A reply still stands, or its identity is erased for good. */
  predicate Stands(text: Text, db: Db, f: Fact)
    requires f.Resolved?
  {
    if f.email in db.identities then db.identities[f.email] == f.master
    else f.master in db.tombstones && text.digest(f.email) in db.suppressed
  }

  ghost predicate TablesOk(text: Text, db: Db) {
    && Injective(db.identities)
    && (forall e | e in db.identities :: e == NormalizeEmail(text, e) && e != "" && db.identities[e] !in db.tombstones)
  }

  ghost predicate FactsOk(text: Text, db: Db) {
    forall i | 0 <= i < |db.outbox| ::
      if db.outbox[i].Resolved? then Stands(text, db, db.outbox[i]) else db.outbox[i].master in db.tombstones
  }

  /** What the outbox alone shows, over the whole history of replies. */
  ghost predicate OneIdentity(outbox: seq<Fact>) {
    // One email has one id and one id has one email.
    && (forall i, j | 0 <= i < j < |outbox| && outbox[i].Resolved? && outbox[j].Resolved? ::
          outbox[i].email == outbox[j].email <==> outbox[i].master == outbox[j].master)
    // After an id is erased, neither the id nor an email it ever had is answered again.
    && (forall i, j | 0 <= i < j < |outbox| && outbox[i].Erased? && outbox[j].Resolved? ::
          outbox[j].master != outbox[i].master)
  }

  lemma {:induction false} EmailNeverAnsweredAgain(outbox: seq<Fact>, i: nat, j: nat, k: nat)
    requires OneIdentity(outbox) && i < |outbox| && j < k < |outbox|
    requires outbox[i].Resolved? && outbox[j] == Erased(outbox[j].request, outbox[i].master, outbox[j].cause)
      && outbox[k].Resolved?
    ensures outbox[k].email != outbox[i].email
  {
    if i < k {
      assert outbox[k].master != outbox[j].master;
    }
  }

  /** Every processed envelope left exactly one answer, acknowledgement or held lookup. */
  predicate NothingDropped(db: Db) { |db.inbox| == |db.held| + |db.outbox| }

  ghost predicate Inv(text: Text, db: Db) {
    TablesOk(text, db) && FactsOk(text, db) && OneIdentity(db.outbox) && NothingDropped(db)
  }

  lemma ReplyFits(text: Text, db: Db, f: Fact, i: nat)
    requires TablesOk(text, db) && f.Resolved? && i < |db.outbox|
    requires f.email in db.identities && db.identities[f.email] == f.master
    requires if db.outbox[i].Resolved? then Stands(text, db, db.outbox[i]) else db.outbox[i].master in db.tombstones
    ensures db.outbox[i].Resolved? ==> (db.outbox[i].email == f.email <==> db.outbox[i].master == f.master)
    ensures db.outbox[i].Erased? ==> db.outbox[i].master != f.master
  {
  }

  /** An answered lookup, seen as a change of the tables. */
  lemma AnswerKeeps(text: Text, db: Db, after: Db, f: Fact)
    requires TablesOk(text, db) && FactsOk(text, db) && OneIdentity(db.outbox)
    requires f.Resolved? && f.email == NormalizeEmail(text, f.email)
    requires f.email != "" && text.digest(f.email) !in db.suppressed
    requires if f.email in db.identities then f.master == db.identities[f.email]
             else f.master !in db.identities.Values && f.master !in db.tombstones
    requires after.identities == db.identities[f.email := f.master] && after.tombstones == db.tombstones
    requires after.suppressed == db.suppressed && after.outbox == db.outbox + [f]
    ensures TablesOk(text, after) && FactsOk(text, after) && OneIdentity(after.outbox)
  {
    hide NormalizeEmail, OneIdentity;
    assert TablesOk(text, after);
    forall i | 0 <= i < |db.outbox|
      ensures after.outbox[i] == db.outbox[i]
      ensures if db.outbox[i].Resolved? then Stands(text, after, db.outbox[i])
        else db.outbox[i].master in after.tombstones
    {
    }
    assert FactsOk(text, after);
    forall i | 0 <= i < |db.outbox|
      ensures db.outbox[i].Resolved? ==> (db.outbox[i].email == f.email <==> db.outbox[i].master == f.master)
      ensures db.outbox[i].Erased? ==> db.outbox[i].master != f.master
    {
      ReplyFits(text, after, f, i);
    }
    OutboxGrows(db.outbox, f);
  }

  lemma OutboxGrows(outbox: seq<Fact>, f: Fact)
    requires OneIdentity(outbox)
    requires f.Resolved? ==> forall i | 0 <= i < |outbox| ::
      if outbox[i].Resolved? then (outbox[i].email == f.email <==> outbox[i].master == f.master)
        else outbox[i].master != f.master
    ensures OneIdentity(outbox + [f])
  {
  }

  lemma LookupKeeps(text: Text, db: Db, step: Step)
    requires Inv(text, db) && step.LookupStep? && FreshStep(text, db, step)
    ensures Inv(text, Do(text, db, step))
  {
    hide NormalizeEmail, OneIdentity, TablesOk, FactsOk;
    var after, email := Do(text, db, step), NormalizeEmail(text, step.email);
    NormalizeIsIdempotent(text, step.email);
    if after.outbox != db.outbox {
      AnswerKeeps(text, db, after, after.outbox[|db.outbox|]);
    } else {
      NoAnswerKeeps(text, db, after);
    }
  }

  lemma NoAnswerKeeps(text: Text, db: Db, after: Db)
    requires TablesOk(text, db) && FactsOk(text, db)
    requires after.identities == db.identities && after.tombstones == db.tombstones
    requires after.suppressed == db.suppressed && after.outbox == db.outbox
    ensures TablesOk(text, after) && FactsOk(text, after)
  {
  }

  lemma EraseKeeps(text: Text, db: Db, step: Step)
    requires Inv(text, db) && step.EraseStep?
    ensures Inv(text, Do(text, db, step))
  {
    var after := Do(text, db, step);
    if after.outbox != db.outbox {
      assert forall i | 0 <= i < |db.outbox| :: after.outbox[i] == db.outbox[i];
      forall i | 0 <= i < |db.outbox|
        ensures if db.outbox[i].Resolved? then Stands(text, after, db.outbox[i])
          else db.outbox[i].master in after.tombstones
      {
      }
      assert FactsOk(text, after);
    }
  }

  /** Main theorem: over every run of lookups, redeliveries, failed transactions and
      erasures, one email has one masterId for ever, two emails never share one, an erased
      id or email is never answered again, and no live row carries a tombstoned id. */
  lemma {:induction false} OneIdentityForever(text: Text, steps: seq<Step>)
    requires Fresh(text, steps)
    ensures Inv(text, Exec(text, steps))
  {
    hide Inv, Do;
    if steps == [] {
      EmptyIsOk(text);
    } else {
      var front, last := steps[..|steps| - 1], steps[|steps| - 1];
      OneIdentityForever(text, front);
      if last.LookupStep? {
        LookupKeeps(text, Exec(text, front), last);
      } else {
        EraseKeeps(text, Exec(text, front), last);
      }
    }
  }

  lemma EmptyIsOk(text: Text)
    ensures Inv(text, EMPTY)
  {
  }

  /** The reply of a lookup step, with its masterId; None when it gave none. */
  function ReplyOf(text: Text, steps: seq<Step>, i: nat): Option<MasterId>
    requires i < |steps|
  {
    var before, after := Exec(text, steps[..i]).outbox, Exec(text, steps[..i + 1]).outbox;
    if steps[i].LookupStep? && |after| > |before| && after[|before|].Resolved? then Some(after[|before|].master)
    else None
  }

  lemma {:induction false} OutboxOnlyGrows(text: Text, steps: seq<Step>, n: nat)
    requires n <= |steps|
    ensures Exec(text, steps[..n]).outbox <= Exec(text, steps).outbox
  {
    hide NormalizeEmail;
    if n == |steps| {
      assert steps[..n] == steps;
    } else {
      var front := steps[..|steps| - 1];
      assert front[..n] == steps[..n];
      OutboxOnlyGrows(text, front, n);
    }
  }

  lemma ReplyIsStored(text: Text, steps: seq<Step>, i: nat)
    requires i < |steps| && ReplyOf(text, steps, i).Some?
    ensures var n, outbox := |Exec(text, steps[..i]).outbox|, Exec(text, steps).outbox;
      && n < |outbox| && outbox[n].Resolved? && outbox[n].master == ReplyOf(text, steps, i).value
      && outbox[n].email == NormalizeEmail(text, steps[i].email)
  {
    hide NormalizeEmail;
    assert steps[..i + 1][..i] == steps[..i];
    OutboxOnlyGrows(text, steps, i + 1);
  }

  /** Main theorem: over a whole run, two answered lookups were given one masterId if and only
      if they asked for one address. */
  lemma OnePersonOneId(text: Text, steps: seq<Step>, i: nat, j: nat)
    requires Fresh(text, steps) && i < |steps| && j < |steps|
    requires ReplyOf(text, steps, i).Some? && ReplyOf(text, steps, j).Some?
    ensures ReplyOf(text, steps, i) == ReplyOf(text, steps, j) <==>
      SameAddress(text, steps[i].email, steps[j].email)
  {
    hide NormalizeEmail, Do, Exec, SameAddress;
    OneIdentityForever(text, steps);
    ReplyIsStored(text, steps, i);
    ReplyIsStored(text, steps, j);
    SameKeyExactly(text, steps[i].email, steps[j].email);
  }

  predicate NoneResurrected(db: Db) { forall e | e in db.identities :: db.identities[e] !in db.tombstones }

  /** Minting never consults the tombstones: from a good state a step brings an erased id
      back exactly when it mints one. */
  lemma ResurrectionNeedsAnErasedCandidate(text: Text, db: Db, step: Step)
    requires Inv(text, db)
    ensures NoneResurrected(Do(text, db, step)) <==> FreshStep(text, db, step)
  {
    hide OneIdentity, FactsOk, NormalizeEmail;
    var after := Do(text, db, step);
    if step.EraseStep? {
      EraseKeeps(text, db, step);
    } else {
      var email := NormalizeEmail(text, step.email);
      if Mints(text, db, step) {
        assert after.identities[email] == step.candidate;
      } else {
        assert after.identities == db.identities;
      }
    }
  }

  /** Over whole runs: no tombstoned id was ever in the table, at any moment, exactly when no
      committed minting step drew an erased id. */
  lemma {:induction false} NeverResurrectedExactlyWhenFresh(text: Text, steps: seq<Step>)
    ensures (forall n | 0 <= n <= |steps| :: NoneResurrected(Exec(text, steps[..n]))) <==> Fresh(text, steps)
  {
    hide NoneResurrected, Do, FreshStep, Inv;
    if steps == [] {
      NothingToResurrect();
      assert steps[..0] == [];
    } else {
      var m := |steps| - 1;
      var front, last := steps[..m], steps[m];
      NeverResurrectedExactlyWhenFresh(text, front);
      assert forall n | 0 <= n <= m :: front[..n] == steps[..n];
      assert steps[..|steps|] == steps;
      if Fresh(text, front) {
        OneIdentityForever(text, front);
        ResurrectionNeedsAnErasedCandidate(text, Exec(text, front), last);
      }
      if forall n | 0 <= n <= |steps| :: NoneResurrected(Exec(text, steps[..n])) {
        assert forall n | 0 <= n <= m :: NoneResurrected(Exec(text, front[..n]));
        assert NoneResurrected(Exec(text, steps[..|steps|]));
      }
      if Fresh(text, steps) {
        forall n | 0 <= n <= |steps| ensures NoneResurrected(Exec(text, steps[..n])) {
          if n <= m {
            assert NoneResurrected(Exec(text, front[..n]));
          }
        }
      }
    }
  }

  lemma NothingToResurrect()
    ensures NoneResurrected(EMPTY)
  {
  }

  /** It happens for every id and every email: erase an id that is not minted yet, then mint it. */
  lemma ResurrectionHappens(text: Text, e1: EventId, r1: RequestId, e2: EventId, r2: RequestId, raw: string,
                            master: MasterId)
    requires e1 != e2 && master != "" && NormalizeEmail(text, raw) != ""
    ensures var steps := [EraseStep(e1, r1, master, true), LookupStep(e2, r2, raw, master, true)];
      && !NoneResurrected(Exec(text, steps))
      && Exec(text, steps).identities == map[NormalizeEmail(text, raw) := master]
  {
    hide NormalizeEmail;
    var steps := [EraseStep(e1, r1, master, true), LookupStep(e2, r2, raw, master, true)];
    assert steps[..1] == [steps[0]];
    var db, email := Exec(text, [steps[0]]), NormalizeEmail(text, raw);
    FirstStep(text, steps[0]);
    assert db == Erase(text, EMPTY, e1, r1, master);
    assert EmailsOf(EMPTY.identities, master) == {};
    assert db.identities == map[] && db.suppressed == {} && db.tombstones == {master} && db.inbox == {e1};
    var after := Exec(text, steps);
    assert after == Lookup(text, db, e2, r2, raw, master);
    assert after.identities == map[email := master];
    assert after.identities[email] in after.tombstones;
  }

  lemma FirstStep(text: Text, step: Step)
    ensures Exec(text, [step]) == Do(text, EMPTY, step)
  {
    assert Exec(text, []) == EMPTY;
    assert [step][..0] == [];
  }

  /** The replay guard: creation runs exactly when the id is not tombstoned. */
  method GuardedCreate(tombstones: set<MasterId>, rows: set<MasterId>, master: MasterId)
    returns (blocked: bool, after: set<MasterId>)
    ensures blocked <==> master in tombstones
    ensures after == if blocked then rows else rows + {master}
    ensures rows !! tombstones ==> after !! tombstones
  {
    blocked := master in tombstones;
    after := rows;
    if !blocked {
      after := rows + {master};
    }
  }
}
