# Pitwall, verified

Pitwall is a set of services (Timing, Driver, Leaderboard, Identity) joined by an
at-least-once message bus. Almost everything it promises is a statement about whole runs:
redelivery, reordering, failed transactions and restarts must not lose a message, invent a
lap, mint a second identity or show a different board. This project models the services'
tables, transactions, loops and protocols in Dafny and proves those promises for every
input and every run.

`dafny verify dfyconfig.toml` checks everything.

## How the model is built

Each component has three layers.

* Tables are values (`Db`, `Tables`, `Sys`); a committed transaction is a function on them.
* Where the program updates state in place, a class holds the tables as fields, and each
  method is proved equal to that function (or to an independent closed form) by loops with
  invariants. A transaction takes a `commits` flag: when it is false, nothing changes.
* Theorems are lemmas over all sequences of steps, where a step may be a delivery, a
  redelivery, a failed transaction, a failed acknowledgement, a crash or a restart.

| file | component |
|---|---|
| `Base.dfy` | optional values, byte-wise string order, trimming and lower-casing |
| `Laps.dfy`, `Capture.dfy`, `LapArithmetic.dfy`, `RunTrace.dfy` | Timing: one tracker, one session, what a session's laps add up to, the whole `Run` |
| `PersonalRecord.dfy`, `DriverStore.dfy` | the record protocol of Timing and Driver; Driver's transactions |
| `Leaderboard.dfy` | the projection, the ingest sequence, the board |
| `Agreement.dfy` | Timing, Leaderboard and Driver agree on each session |
| `DlqPolicy.dfy`, `Delivery.dfy`, `Escalation.dfy`, `Settlement.dfy` | retry policy; broker, consumer and inbox as a step machine; retries up to parking; parked or applied |
| `Identity.dfy`, `Registration.dfy` | resolve-or-mint and erasure; the register-first resolver |
| `Outbox.dfy`, `PublishOrder.dfy`, `Relay.dfy` | row lifecycle; publication order; the drain loop |
| `WireTime.dfy`, `Hub.dfy` | wire timestamps; the keep-latest fan-out |

## Assumptions

* A publish to the dead-letter exchange that returns no error means the broker holds the
  copy (`libs/go-pitwall/messaging/dlq.go:217-228` does not wait for a confirm).
* Minted ids are never ids that were erased, request ids are fresh, envelope ids are fresh.
  For minted ids `Identity.NeverResurrectedExactlyWhenFresh` shows that this is exactly
  what the code depends on: minting never reads the tombstones.
* Contract validation is a fixed predicate on the payload.
* Crossing instants are whole milliseconds.
* Go's lower-casing maps each rune, is idempotent and neither makes nor removes white space;
  Go's time parser reads the zone of a `Z07:00` layout as Z or as a sign, two digits, a colon
  and two digits, with at most 24 hours and 60 minutes.

## Where code and comments differ

The model follows the code.

* `services/timing/internal/persistence/pr_store.go:80-82` says a refresh leaves session_id
  NULL; on an existing row the statement leaves the old session_id in place.
* `libs/go-pitwall/messaging/envelope.go:29-31` says a numeric offset is an error; the layout
  accepts one (`WireTime.OffsetIsAccepted`, `WireTime.AcceptedExactly`), and with offsets text
  order is not time order (`WireTime.OffsetPartsTextFromTime`).
* `services/leaderboard/internal/web/server.go:176` allows for a second send that finds the
  buffer full; `Hub.SecondSendNeverFails` shows that this never happens.
* `services/identity/internal/persistence/erasure_store.go` writes tombstones as a guard
  against resurrection, but minting does not consult them.

## Properties that fail, and exactly when

* Timing's record commit and the enqueue of its break are separate transactions, and so are
  the lap and its check. A crash between them can leave Driver's record wrong
  (`PersonalRecord.CrashBeforeTheBreak`, `PersonalRecord.CrashBeforeTheCheck`);
  `PersonalRecord.RecordConvergesExactly` says for every run when it is right.
* Timing's record copy need not equal Driver's record when refreshes arrive out of order
  (`PersonalRecord.ReorderedRefreshesDisagree`); `PersonalRecord.CopyEqualsRecordExactly` says
  when it does.
* Deleting bounces from a session's stream can move the outage window, which is placed by
  index (`LapArithmetic.DeletionMovesTheWindow`); `LapArithmetic.BounceDeletionIsExact` says
  when nothing changes.
* A message can be both parked and applied. `Settlement.BothExactlyWhenUnsmooth` says from
  which steps: a second routing of the message, a publish of its copy that arrives but reports
  an error, a failed ack, or a crash while its ack is due; no others, under every policy.
* The instant stored with a best lap depends on the order of the events exactly when laps of
  different instants tie for it (`Leaderboard.TieDependsOnOrder`, `Leaderboard.TiesOfOneInstant`).
* First publications are not always in key order. `PublishOrder.OrderBreaksExactly` says which
  enqueues can break it: those of a valid row below a published key or below a valid key of the
  batch in hand.
* An erased id can be minted again (`Identity.ResurrectionHappens`);
  `Identity.NeverResurrectedExactlyWhenFresh` says when it never is.

## Model

| member | source | states |
|---|---|---|
| PersonalRecord.RecordConvergesExactly | services/timing/internal/simulator/simulator.go:290-302 | in every interleaving of Timing, Driver and a bus that delays, reorders and duplicates, with Timing crashing anywhere, once it is quiet for a driver Driver's record is the minimum of the laps Timing observed if and only if every announcement lost to a crash is at or above the record and the record is not a lap whose check was lost |
| PersonalRecord.RecordConverges | services/timing/internal/simulator/simulator.go:290-302 | so it is that minimum, and absent exactly when there was none, in every run in which no crash falls between a lap of the driver, its check and its break |
| PersonalRecord.CrashBeforeTheBreak | services/timing/internal/simulator/simulator.go:391-406 | any first lap with a crash before its break: observed, no record, no break |
| PersonalRecord.CrashBeforeTheCheck | services/timing/internal/simulator/simulator.go:290-302 | any faster lap with a crash before its check: Driver's history makes it the record though Timing never observed it |
| PersonalRecord.CopyEqualsRecordExactly | services/timing/internal/persistence/pr_store.go:50-95 | when all is quiet the copy is never below the record; last written by a refresh it equals the record exactly when that was the driver's latest announcement, last written by a lap's check exactly when the lap is the fastest Timing observed and the record is not a lap whose check was lost |
| PersonalRecord.CopyCheckedByTiming | services/timing/internal/persistence/pr_store.go:50-95 | where no crash harmed the driver, that is decided by Timing's own laps and the announcements alone |
| PersonalRecord.InOrderRefreshesAgree | services/timing/internal/persistence/pr_store.go:75-95 | with refreshes in order, once the latest announcement has reached Timing, its copy is Driver's record |
| PersonalRecord.ReorderedRefreshesDisagree | services/timing/internal/persistence/pr_store.go:75-95 | two records of any driver refreshed newest first leave the older one in the copy |
| PersonalRecord.LatestIsTheRecord | services/driver/driver/consumer.py:285-300 | an announcement carries the stored record exactly when it is the driver's latest |
| PersonalRecord.StepKeepsCopies | services/timing/internal/persistence/pr_store.go:50-95 | the copy is what its last write carried and never above the last refresh |
| PersonalRecord.RecordIsNeverInvented | services/driver/driver/consumer.py:252-308 | at every moment the record is a lap time Timing recorded for that driver |
| PersonalRecord.RecordsAreGenuine | services/driver/driver/consumer.py:188-308 | in every run each stored lap is a lap Timing recorded, and each record has the session, time and instant of one and the same recorded lap of its driver |
| PersonalRecord.RunKeepsInv | services/timing/internal/simulator/simulator.go:384-410 | the inductive invariant: every observed lap and every local copy has a published, pending or crash-lost break or a Driver record at or below it |
| PersonalRecord.StepKeepsCovered | services/timing/internal/persistence/pr_store.go:50-95 | a refresh may overwrite the local copy with any confirmed value, even between a lap and its check, and coverage survives |
| PersonalRecord.StepKeepsConfirmed | services/driver/driver/consumer.py:270-302 | a processed break leaves Driver's record at or below its claim, for ever |
| PersonalRecord.PrStore.ObserveLap | services/timing/internal/persistence/pr_store.go:50-73 | the copy advances exactly when there is none or the lap is faster, and then holds the lap's time, session and instant; a break is reported exactly then and carries the beaten value; otherwise, and on a failed transaction, nothing changes |
| PersonalRecord.PrStore.Refresh | services/timing/internal/persistence/pr_store.go:79-95 | sets time, instant and update time; an existing row keeps its session, a new one has none; no other driver changes |
| DriverStore.DeliveryRunInvariant | services/driver/driver/consumer.py:143-308 | over every run each lap, summary and record row has a profile, each masterId seen is announced exactly once, the history facts are exactly one per summary row of the distinct session ends in order, each with its row's session, best and count, and announced records strictly decrease to the stored one |
| DriverStore.HistoryIsFaithful | services/driver/driver/persistence/history.py:17-67 | after any run every stored lap is the content of the first applied lap event with its key, every stored summary the first row for its key of the first applied session end that has one, and every key applied is stored |
| DriverStore.SummariesStored | services/driver/driver/persistence/history.py:47-67 | the summary loop adds exactly the keys of its rows, never rewrites an old row, and stores the first row that names a new key |
| DriverStore.RedeliveriesAreInvisible | services/driver/driver/consumer.py:180-185 | any run equals the run of its applied envelopes, each once |
| DriverStore.BreakTakesMinimum | services/driver/driver/consumer.py:275-300 | a break leaves the least of stored record, stored laps and claim, with the session and instant of the one it took, and touches no other driver |
| DriverStore.HistoryWinsTies | services/driver/driver/consumer.py:270-302 | what a break does, exactly: a record no higher than the claim and all stored laps stays unannounced; otherwise the driver's fastest, earliest stored lap is taken if it equals or beats the claim, else the claim, and it is announced with its own instant |
| DriverStore.HistoryBestIsFastest | services/driver/driver/persistence/pr.py:16-33 | the history query returns the driver's fastest lap, the earliest of equals, and nothing exactly when there is none |
| DriverStore.ProcessFrame | services/driver/driver/consumer.py:170-308 | laps only grow by the delivered lap, records only fall, an announcement carries the new record |
| DriverStore.ProcessSource | services/driver/driver/consumer.py:188-308 | a new lap row is the delivered lap field by field; a new record is the claim or a stored lap of that driver, whole |
| DriverStore.EnsureKeeps | services/driver/driver/consumer.py:143-167 | the profile safety net adds exactly the missing profile and one announcement |
| DriverStore.StoreSummariesKeeps | services/driver/driver/consumer.py:229-245 | the summary loop keeps every invariant and adds one history fact per row, in order, with the row's best and count |
| DriverStore.Service.constructor | services/driver/driver/consumer.py:378-392 | starts with empty tables |
| DriverStore.Service.Ensure | services/driver/driver/persistence/profiles.py:12-34 | create-only insert; reports creation exactly when the profile was missing |
| DriverStore.Service.FindHistoryBest | services/driver/driver/persistence/pr.py:16-33 | the scan finds the driver's fastest stored lap, earliest on a tie |
| DriverStore.Service.IdentityResolvedTx | services/driver/driver/consumer.py:170-185 | one all-or-nothing transaction equal to Process; duplicate and created reported exactly |
| DriverStore.Service.LapRecordedTx | services/driver/driver/consumer.py:188-208 | one transaction equal to Process; a lap is appended, whole, exactly when the event is new and no stored row has its (driver, session, number) or its source event |
| DriverStore.Service.SessionEndedTx | services/driver/driver/consumer.py:211-249 | one transaction equal to Process; the count of history facts is the number of rows, or zero on a duplicate or failure |
| DriverStore.Service.RecordBrokenTx | services/driver/driver/consumer.py:252-308 | one transaction equal to Process; a record is published exactly when the stored record changed, with its new value |
| Delivery.NoMessageIsLost | services/leaderboard/internal/consumer/consumer.go:197-278 | in every run with failed transactions, lost and half-failed publishes, failed acks and crashes at any step, each routed message has a copy in work, unacked, retry or parking, or its id is committed, or it is a valid unhandled type |
| Delivery.EffectsHappenOnce | libs/go-pitwall/persistence/inbox.go:18-40 | each effect is committed at most once, the inbox is exactly the effects committed, and no retry header passes the cap |
| Delivery.PoisonIsNeverRetried | services/leaderboard/internal/consumer/consumer.go:76-109 | in every run a message that fails validation is never in retry, never carries a header and, without a park sink, is only ever rejected; an unhandled type is only ever acked; each inbox id is that of a routed, handled message |
| Delivery.DeliveryOutcome | services/leaderboard/internal/consumer/consumer.go:76-259 | what one delivery does to the queues, case by case: invalid parked at once, unhandled or committed acked, failed retried with the next header or parked at the cap; a failed publish, ack or nack leaves the original in place; the id is committed exactly when handled and stored |
| Delivery.StepKeepsInv | libs/go-pitwall/messaging/dlq.go:92-159 | every protocol step keeps: an ack is only sent when another copy exists or the message is done |
| Delivery.StepKeepsBody | services/leaderboard/internal/consumer/consumer.go:218-259 | no step removes the last trace of an unfinished message |
| Delivery.Handler.constructor | services/leaderboard/internal/consumer/consumer.go:39-57 | starts empty and waiting |
| Delivery.Handler.AckDelivery | services/leaderboard/internal/consumer/consumer.go:268-272 | removes the copy, or leaves it unacked when the ack fails |
| Delivery.Handler.Nack | services/leaderboard/internal/consumer/consumer.go:274-278 | requeues, or rejects to parking, or leaves it unacked on failure |
| Delivery.Handler.DeadLetterThenSettle | libs/go-pitwall/messaging/dlq.go:217-237 | publish first, then ack the original, or requeue it when the publish failed |
| Delivery.Handler.Park | services/leaderboard/internal/consumer/consumer.go:246-259 | parks through the sink, or rejects to the safety net without one |
| Delivery.Handler.RetryOrPark | services/leaderboard/internal/consumer/consumer.go:218-244 | follows the policy's decision: retry with the next header, park at the cap, requeue without a sink |
| Delivery.Handler.DispatchDelivery | services/leaderboard/internal/consumer/consumer.go:81-109 | an invalid message goes to parking, or is rejected without a sink; an unhandled type is acked and not committed; a handled one commits inbox and effect together; may be acked exactly when done |
| Delivery.Handler.Process | services/driver/driver/consumer.py:393-440 | one delivery from start to finish is a run of the step machine, ends waiting, and leaves exactly the queues and inbox its class and the outcomes of its calls call for |
| DlqPolicy.BackoffMs | libs/go-pitwall/dlq/dlq.go:48-60 | the clamped loop is min(Base * Multiplier^hop, Max), and no intermediate product exceeds max(Base, Max) * Multiplier |
| DlqPolicy.BackoffMsPython | libs/py-pitwall/pitwall/dlq.py:43-51 | the Python loop computes the same value |
| DlqPolicy.BackoffMonotone | libs/go-pitwall/dlq/dlq.go:48-60 | the delay never falls with the hop and stays between Base and Max |
| DlqPolicy.ParkedExactlyAtTheCap | libs/go-pitwall/dlq/dlq.go:34-46 | the policy's decisions alone: a chain of failures parks on exactly attempt MaxAttempts |
| DlqPolicy.WaitsGrowToTheCeiling | libs/go-pitwall/dlq/dlq.go:34-60 | retry k of a message that keeps failing waits Base * Multiplier^k or Max, whichever is less, and there is one retry fewer than there are attempts |
| Escalation.ParkedAtTheCap | services/leaderboard/internal/consumer/consumer.go:218-259 | in every run of the delivery machine, other messages interleaved, a message that is routed once, whose transactions fail, whose republishes arrive and whose acks succeed, with no crash in the middle of settling it, is dispatched at most MaxAttempts times; between settlements it has one copy, parked exactly when it was dispatched that often, else with a header that counts its dispatches |
| Escalation.StepTells | libs/go-pitwall/messaging/dlq.go:49-89 | every step keeps that account of the message |
| Settlement.BothExactlyWhenUnsmooth | services/leaderboard/internal/consumer/consumer.go:197-278 | in every state of every run in which a message was settled smoothly so far, under every policy, a step can lead to its being both parked and applied if and only if it is a second routing of it, a half-failed publish of its copy, a failed ack of it, or a crash while its ack is due |
| Settlement.ParkedOrApplied | services/leaderboard/internal/consumer/consumer.go:197-259 | without those four it is never both, whatever fails and dies around it |
| Settlement.StepKeepsOneFate | services/leaderboard/internal/consumer/consumer.go:197-259 | every smooth step keeps it at one copy or one commit |
| Settlement.DriveToParking | services/leaderboard/internal/consumer/consumer.go:218-259 | a copy that keeps failing reaches parking under every policy |
| Settlement.ParkedAndApplied | libs/go-pitwall/messaging/dlq.go:217-237 | each of the four causes happens to every message under every policy and can end with it both parked and applied |
| Leaderboard.NoiseIsInvisible | services/leaderboard/internal/consumer/consumer.go:59-137 | erasing redeliveries, failed attempts, parked messages and restarts from any run leaves the same current session, status, timestamps and ordered rows |
| Leaderboard.ClosedForm | services/leaderboard/internal/persistence/store.go:53-187 | after any run each best is the minimum of its applied laps with the time of the first to reach it, each status the join of its events, each timestamp that of the first event, epochs 1..n in first-sight order |
| Leaderboard.AppliedAreTheFirsts | services/leaderboard/internal/consumer/consumer.go:111-195 | the events applied are exactly the first committed attempt of each id whose session id has a character that is not white space, and the inbox holds exactly their ids |
| Leaderboard.OrderDoesNotMatter | services/leaderboard/internal/persistence/store.go:53-187 | bests, statuses and known sessions depend only on which events were applied |
| Leaderboard.TiesOfOneInstant | services/leaderboard/internal/domain/standings.go:40-50 | the stored instant of a best does not depend on the order either when the laps that tie for it carry one instant |
| Leaderboard.TieDependsOnOrder | services/leaderboard/internal/domain/standings.go:40-50 | otherwise each tied lap's instant is the one stored after some order of the same events |
| Leaderboard.ReplayNeverMovesThePointer | services/leaderboard/internal/persistence/store.go:102-187 | a start or end of a known session never moves the current session, touches standings, changes an epoch or reopens a finished session |
| Leaderboard.RunIsAlikeItsCleaning | services/leaderboard/internal/consumer/consumer.go:122-128 | stored sequence numbers are distinct, positive and never above the counter, and order rows like the noise-free run |
| Leaderboard.StepKeepsSeqs | services/leaderboard/internal/persistence/store.go:245-254 | the sequence invariant survives laps, failed transactions and reseeding from the stored maximum |
| Leaderboard.RunEpochs | services/leaderboard/internal/persistence/store.go:261-275 | epochs are exactly 1..n in the order sessions were first seen |
| Leaderboard.LatestSeenIsCurrent | services/leaderboard/internal/persistence/store.go:195-214 | the current session is the one whose first applied event came last |
| Leaderboard.AlikeShowTheSame | services/leaderboard/internal/persistence/store.go:195-240 | tables that differ only in sequence numbers of the same order show the same board |
| Leaderboard.Store.constructor | services/leaderboard/internal/persistence/store.go:36-39 | starts with empty tables |
| Leaderboard.Store.MaxSeq | services/leaderboard/internal/persistence/store.go:245-254 | the maximum stored sequence number, 0 when there is none |
| Leaderboard.Store.MaxEpoch | services/leaderboard/internal/persistence/store.go:261-275 | the maximum stored epoch, 0 when there is none |
| Leaderboard.Store.EnsureRow | services/leaderboard/internal/persistence/store.go:261-275 | creates a session with the next epoch exactly when it is unknown |
| Leaderboard.Store.ApplyLap | services/leaderboard/internal/persistence/store.go:53-89 | equals the committed effect; applied exactly when sessions or standings changed |
| Leaderboard.Store.ApplySessionStarted | services/leaderboard/internal/persistence/store.go:102-141 | equals the committed effect; applied exactly when a session row changed |
| Leaderboard.Store.ApplySessionEnded | services/leaderboard/internal/persistence/store.go:148-187 | equals the committed effect; applied exactly when a session row changed |
| Leaderboard.Store.RowsOf | services/leaderboard/internal/persistence/store.go:215-231 | exactly the session's standings, once per driver: faster laps first, of equal laps the earlier instant, of one instant the one ingested first |
| Leaderboard.Store.CurrentBoard | services/leaderboard/internal/persistence/store.go:195-240 | the board of the session with the greatest epoch with exactly its rows in order; waiting exactly when there is no session |
| Leaderboard.Handler.constructor | services/leaderboard/internal/consumer/consumer.go:39-60 | startup seeds the counter from the stored maximum |
| Leaderboard.Handler.Process | services/leaderboard/internal/consumer/consumer.go:111-195 | a session id of white space alone changes nothing; otherwise a lap draws a sequence number before the store is called, and a committed unseen event adds its id to the inbox, its session to the sessions and, for a lap, the driver's best of what was held and the lap |
| Leaderboard.Rank | services/leaderboard/internal/domain/standings.go:52-75 | a permutation of the bests, faster first and of equal laps the earlier instant first, numbered from 1, fastest flagged on the first only |
| Agreement.EveryServiceAgrees | services/timing/internal/simulator/simulator.go:570-628 | for any crossings, once every lap of the generated session is applied in any order with duplicates, a driver is on the board exactly when it has a summary row and exactly when Driver stored a lap; best, count and minimum agree, and once the end is applied Driver's stored summary is exactly that row |
| Agreement.ReconciledSessionsAgree | services/timing/internal/simulator/simulator.go:646-685 | the same for every reconciled session |
| Agreement.ReconciledIsConsistent | services/timing/internal/simulator/simulator.go:660-683 | a reconciled session has unique lap numbers and a summary that describes exactly its laps |
| Agreement.DriverSummaryAgrees | services/driver/driver/persistence/history.py:47-67 | Driver's stored summary of a driver and session is the generator's row, and there is one exactly for the summary's drivers |
| Agreement.LeaderboardAgrees | services/leaderboard/internal/persistence/store.go:53-89 | the board holds exactly the summary's drivers with the summary's best laps |
| Agreement.DriverAgrees | services/driver/driver/persistence/history.py:17-44 | Driver's stored laps of the session have exactly the summary's count and minimum |
| Agreement.GeneratedIsConsistent | services/timing/internal/simulator/simulator.go:602-628 | every generated session has unique (driver, number) laps and a summary that describes exactly them |
| Agreement.LapKeysAreUnique | services/timing/internal/domain/laps.go:71-102 | Reset keeps the lap count, so no two laps of a session share driver and number |
| Agreement.FreshLapIsStored | services/driver/driver/persistence/history.py:35-44 | the lap primary key never discards a genuine lap |
| Agreement.NoRowNoLaps | services/driver/driver/persistence/history.py:17-44 | a stored lap implies a summary row |
| Identity.OneIdentityForever | services/identity/internal/consumer/resolver.go:43-106 | over every run of lookups, redeliveries, failures and erasures all replies for one normalized email carry one masterId, two emails never share one, an erased id is never answered again, no live row is tombstoned, and every processed envelope left exactly one reply, acknowledgement or held lookup |
| Identity.OnePersonOneId | services/identity/internal/consumer/resolver.go:43-106 | over every run two answered lookups were given one masterId if and only if their addresses, without surrounding white space, agree character for character in lower case |
| Identity.EmailNeverAnsweredAgain | services/identity/internal/consumer/resolver.go:57-79 | after the erasure of an id no reply is enqueued for an email it was ever given to |
| Identity.NeverResurrectedExactlyWhenFresh | services/identity/internal/persistence/store.go:30-49 | over every run no tombstoned id is ever in the table if and only if no committed minting step drew an erased id |
| Identity.ResurrectionNeedsAnErasedCandidate | services/identity/internal/persistence/store.go:30-49 | from a good state a step puts a tombstoned id into the table exactly when it mints one |
| Identity.ResurrectionHappens | services/identity/internal/persistence/store.go:30-49 | for every id, every non-blank email and all distinct envelope ids: erased before it was minted, the id comes back |
| Identity.LookupKeeps | services/identity/internal/consumer/resolver.go:47-101 | the resolve transaction keeps the whole invariant |
| Identity.EraseKeeps | libs/go-pitwall/erasure/erasure.go:129-152 | the erasure transaction keeps the whole invariant |
| Identity.NormalizeIsIdempotent | services/identity/internal/domain/identity.go:21-23 | normalizing twice is normalizing once, for any rune-wise idempotent lower-casing that keeps white space |
| Identity.VariantsNormalizeAlike | services/identity/internal/domain/identity.go:14-23 | addresses that are the same in lower case have the same key, however they are padded with white space |
| Identity.KeySpellsTheAddress | services/identity/internal/domain/identity.go:14-23 | the key is the one text that spells the address without the white space around it, every character in lower case; it is blank exactly when the address is all white space |
| Identity.SameKeyExactly | services/identity/internal/domain/identity.go:14-23 | two addresses share a key if and only if they agree in lower case up to padding |
| Identity.Service.constructor | services/identity/internal/persistence/store.go:11-18 | starts with empty tables |
| Identity.Service.ResolveOrMint | services/identity/internal/persistence/store.go:30-49 | insert if absent, then the stored id; fails exactly on a primary-key clash |
| Identity.Service.ProcessLookup | services/identity/internal/consumer/consumer.go:139-183 | parks an address of white space alone, dedupes, holds a suppressed email without minting or replying, otherwise enqueues one reply whose key spells the address; minted exactly when a row was added |
| Identity.Service.LookupEmail | services/identity/internal/persistence/erasure_store.go:28-37 | the one email whose row carries the id, or none |
| Identity.Service.ProcessErasure | services/identity/cmd/identity/main.go:142-163 | suppresses and deletes the row if there is one, leaves a tombstone and an acknowledgement either way, rejects an empty id |
| Identity.GuardedCreate | libs/go-pitwall/erasure/erasure.go:169-178 | creates exactly when the id is not tombstoned, so no tombstoned row appears |
| Registration.ResolveReturnsTheOneId | services/timing/internal/consumer/resolver.go:110-165 | in every run with re-published lookups, duplicate and reordered replies, lost signals and crashes, a returned id is the only id Identity ever enqueued for that email, and two calls return the same id exactly when their emails normalize alike |
| Registration.RetryRecovers | services/timing/internal/consumer/resolver.go:167-204 | from every reachable state with an empty waiter, one more lookup that Identity can answer brings the waiter its id |
| Registration.RunIsGood | services/identity/internal/consumer/resolver.go:86-99 | the composed invariant of bus, Identity's outbox, waiters and returned ids |
| Registration.FirstFreshReplyWins | services/timing/internal/consumer/resolver.go:89-108 | a waiter's slot holds exactly the first committed, unseen reply to its request, and is empty exactly when there was none |
| Registration.Resolver.constructor | services/timing/internal/consumer/resolver.go:45-56 | starts with no waiter |
| Registration.Resolver.Register | services/timing/internal/consumer/resolver.go:72-81 | an empty one-slot channel for the request |
| Registration.Resolver.Unregister | services/timing/internal/consumer/resolver.go:83-87 | removes the waiter |
| Registration.Resolver.Signal | services/timing/internal/consumer/resolver.go:89-108 | never blocks: a full slot keeps its first value; live exactly when a waiter was registered |
| Registration.Resolver.Deliver | services/timing/internal/consumer/resolver.go:180-204 | inbox dedupe, then the signal; a redelivery or failed transaction changes nothing |
| Registration.Resolver.Resolve | services/timing/internal/consumer/resolver.go:117-165 | the first round that decides gives the answer: a permanent publish error, the end of the context, or on an accepted publish the first fresh reply to this request so far; it waits on exactly while no round decides, and leaves no waiter behind however it ends |
| Capture.HonestGap | services/timing/internal/simulator/simulator.go:540-619 | a counted lap joins two baseline crossings of its driver, its time is their distance, and between them that driver has only bounces, never a dropped crossing |
| Capture.CountedExactly | services/timing/internal/simulator/simulator.go:570-619 | of the crossings neither dropped nor held, the start markers are exactly those with no baseline since their driver's last dropped crossing, the rejected exactly those nearer than the minimum to it, and every other one emits a lap of exactly that length |
| Capture.EveryCrossingIsAccountedFor | services/timing/internal/simulator/simulator.go:570-619 | each crossing is exactly one of dropped, held, start marker, rejected or one emitted lap |
| Capture.DroppedAreTheWindow | services/timing/internal/simulator/simulator.go:571-595 | exactly the window's crossings are dropped; the rest are held, with their token, session and instant, exactly when their token never checked in |
| Capture.WindowLeavesBothSides | services/timing/internal/simulator/simulator.go:546-566 | an outage happens exactly when configured and the stream has three crossings; it starts after a third of them, and lasts the configured number or as many as leave one crossing after it |
| Capture.OneOutage | services/timing/internal/simulator/simulator.go:570-585 | a session has no scanner event, or one offline followed at once by one online |
| Capture.EachDriverIsTimedAlone | services/timing/internal/simulator/simulator.go:596-608 | a driver's laps are those of its own tracker on its own crossings, rebased after each missed stretch |
| Capture.SessionLapArithmetic | services/timing/internal/domain/laps.go:87-102 | per driver numbers 1..k with no gap across an outage, no lap below the minimum, and its tracker gives the same laps without the bounces it was shown |
| Capture.SummaryIsCountAndMin | services/timing/internal/simulator/simulator.go:609-628 | one summary row per driver with a lap: the count and minimum of that driver's emitted laps |
| Capture.SummaryFollowsTheDrivers | services/timing/internal/simulator/simulator.go:621-627 | the rows come in the order of the drivers |
| Capture.SessionShape | services/timing/internal/simulator/simulator.go:459-630 | a session opens with its start and one check-in per driver at its base time and closes at its last lap, or at its base time without one |
| Capture.SortedStreamIsInTimeOrder | services/timing/internal/simulator/simulator.go:524-525 | the sorted stream is in time order (and a permutation, by SortByTime) |
| Capture.SortIsStable | services/timing/internal/simulator/simulator.go:524-525 | crossings of one instant keep their order |
| LapArithmetic.BounceDeletionIsExact | services/timing/internal/simulator/simulator.go:546-619 | deleting every bounce from a session's stream changes no fate and no event if and only if the window still selects the same crossings and the gap is bounded by crossings of the same instants; held scans, laps, summary and end agree as soon as the window does |
| LapArithmetic.WithoutAnOutage | services/timing/internal/simulator/simulator.go:570-628 | without an outage the whole session and its held scans are unchanged |
| LapArithmetic.DeletionMovesTheWindow | services/timing/internal/simulator/simulator.go:546-566 | a generated session in which deleting one bounce turns a counted lap into a dropped crossing |
| LapArithmetic.GeneratorOfKept | services/timing/internal/simulator/simulator.go:524-525 | handing the generator only the kept crossings gives the cleaned session |
| LapArithmetic.SessionTelescopes | services/timing/internal/simulator/simulator.go:596-608 | a driver's session laps are its segments' laps one after another, at most two segments, each totalling its last valid crossing minus its first, and so together, across the outage |
| LapArithmetic.OneRebaseAtMost | services/timing/internal/simulator/simulator.go:571-601 | the outage parts a driver's laps at most once |
| LapArithmetic.NoLapIsNegative | services/timing/internal/simulator/simulator.go:524-608 | no lap of a generated session is negative, whatever the filter |
| Capture.BuildSummary | services/timing/internal/simulator/simulator.go:621-627 | the loop builds the rows in driver order |
| Capture.GenerateSession | services/timing/internal/simulator/simulator.go:459-630 | the loop emits exactly the specified session and held scans |
| Laps.LapTracker.constructor | services/timing/internal/domain/laps.go:60-69 | a fresh tracker |
| Laps.LapTracker.Reset | services/timing/internal/domain/laps.go:77-80 | drops the baseline and keeps the count |
| Laps.LapTracker.Cross | services/timing/internal/domain/laps.go:87-102 | start marker exactly without a baseline, rejection without any change exactly when the filter is on and the baseline nearer than the minimum, else the next lap timed from it |
| Laps.LapsAreNumberedAndFiltered | services/timing/internal/domain/laps.go:87-102 | over any history of crossings and rebases numbers run on and no lap beats the filter |
| Laps.BouncesCanBeDeleted | services/timing/internal/domain/laps.go:93-98 | deleting every rejected crossing changes no lap and no state |
| Laps.SegmentTelescopes | services/timing/internal/domain/laps.go:99-101 | lap times of one uninterrupted segment add up to its last valid crossing minus its first |
| Laps.LapsAreTheSegmentsLaps | services/timing/internal/domain/laps.go:71-102 | the laps of any history are the concatenation of the laps of its segments between resets |
| Laps.SegmentsTelescope | services/timing/internal/domain/laps.go:71-102 | so they total the spans of the segments |
| Laps.OrderedCrossingsGiveNonNegativeLaps | services/timing/internal/domain/laps.go:87-102 | crossings in time order never give a negative lap |
| RunTrace.Simulator.Run | services/timing/internal/simulator/simulator.go:212-267 | a run whose calls stop succeeding after any number of them has emitted and held exactly what its sessions, reconciled sessions and breaks call for up to there; it completes exactly when the number covers them all, and then every lap that beats the copy read behind it, and no other, has its break; the trace is well bracketed wherever it stops and closed when it completes |
| RunTrace.StoppedRunIsAPrefix | services/timing/internal/simulator/simulator.go:212-267 | what a stopped run emitted and held are prefixes of the whole run |
| RunTrace.SessionsNeverOverlap | services/timing/internal/simulator/simulator.go:212-267 | in an accepted trace a start is first or directly follows an end |
| RunTrace.LapLiesInItsSession | services/timing/internal/simulator/simulator.go:290-331 | the nearest session event before a lap is its own session's start |
| RunTrace.LapIsClosedByItsEnd | services/timing/internal/simulator/simulator.go:290-331 | the next session event after a lap is its own session's end |
| RunTrace.LapHasItsEnd | services/timing/internal/simulator/simulator.go:290-331 | in a trace that ends outside every session, as a completed run's does, that end exists |
| RunTrace.BreakFollowsItsLap | services/timing/internal/simulator/simulator.go:384-410 | each break directly follows the lap that caused it with the same driver, session, time and instant |
| RunTrace.RunAnnouncesEachRecord | services/timing/internal/simulator/simulator.go:290-302 | position by position over a whole run: the trace is the events in order, a break with the beaten value stands right behind a lap if and only if the copy read just then is absent or slower, and there is nothing else |
| RunTrace.EachRecordIsAnnounced | services/timing/internal/simulator/simulator.go:384-410 | the same for any sequence of events and any copies |
| RunTrace.SessionIsBracketed | services/timing/internal/simulator/simulator.go:459-630 | every generated session is accepted by the bracketing automaton |
| RunTrace.ReconciledIsBracketed | services/timing/internal/simulator/simulator.go:646-685 | every reconciled session is too |
| RunTrace.GenerateReconciledSession | services/timing/internal/simulator/simulator.go:646-685 | the loop emits exactly the specified reconciled session, nothing when no crossing counts |
| RunTrace.ReconciledLapsAreTheCounts | services/timing/internal/simulator/simulator.go:660-674 | its laps are exactly what one tracker counts, numbered 1..k |
| RunTrace.BestIsLeast | services/timing/internal/simulator/simulator.go:667-683 | its summary's best is the minimum of its laps |
| RunTrace.ReconciledShape | services/timing/internal/simulator/simulator.go:646-685 | it is empty exactly when off, without drivers or without a counted lap; else the first driver's laps between its start and its end, whose times add up to the span between them, with one summary row of their number and minimum |
| RunTrace.ReconciledTelescopes | services/timing/internal/simulator/simulator.go:660-674 | its laps join up at every point of the loop |
| RunTrace.Simulator.constructor | services/timing/internal/simulator/simulator.go:274-283 | starts with an empty trace and no active session |
| RunTrace.Simulator.Enqueue | services/timing/internal/simulator/simulator.go:290-293 | appends the event exactly when the call still succeeds |
| RunTrace.Simulator.EmitEnvelope | services/timing/internal/simulator/simulator.go:290-331 | emits the event and, for a lap that beats the copy or finds none, its break with the beaten value, as far as calls succeed; keeps the trace accepted and the active flag equal to it |
| RunTrace.Simulator.ObservePR | services/timing/internal/simulator/simulator.go:384-410 | appends one break with the lap's fields and the beaten value exactly when there is no copy or the lap beats it and the call succeeds |
| RunTrace.Simulator.EmitAll | services/timing/internal/simulator/simulator.go:241-252 | emits a sequence with each lap's break right behind it, as far as calls succeed, and remembers the last end |
| RunTrace.Simulator.RunIteration | services/timing/internal/simulator/simulator.go:220-266 | holds the strays, emits the session, then the reconciled session based at its end, each as far as calls succeed; succeeds exactly when they all do |
| RunTrace.Simulator.HoldAll | services/timing/internal/simulator/simulator.go:226-240 | records the strays in order, as far as calls succeed |
| RunTrace.Simulator.EmitReconciledSession | services/timing/internal/simulator/simulator.go:340-377 | emits exactly the reconciled session, based at the last end or at the clock, and only while no session is active |
| Outbox.RelayIsSafe | libs/go-pitwall/relay/relay.go:124-152 | from any safe state every run with publish, store and crash failures stays safe: sent implies confirmed, an invalid payload never reached the broker, a valid one is never quarantined, no row is lost and terminal rows never change |
| PublishOrder.OrderBreaksExactly | libs/go-pitwall/persistence/outbox.go:50-74 | from every safe state in which the order has held, a step can lead to a first publication out of key order if and only if it lets a valid row in below a published key or below a valid key of the batch in hand |
| PublishOrder.OrderBreaksExactlyInRuns | libs/go-pitwall/persistence/outbox.go:50-74 | so after every proper run |
| PublishOrder.FirstPublicationsInKeyOrder | libs/go-pitwall/persistence/outbox.go:50-74 | without such an enqueue first publications happen in key order, whatever fails and however often the relay dies |
| PublishOrder.RisingKeysPublishInOrder | libs/go-pitwall/persistence/outbox.go:50-74 | in particular when rows are enqueued with rising (created_at, id) keys |
| PublishOrder.LateKeyIsPublishedLate | libs/go-pitwall/persistence/outbox.go:50-74 | a row below a published key breaks the order in every run in which it is published at all |
| Outbox.StepKeepsSafe | libs/go-pitwall/persistence/outbox.go:38-96 | every enqueue, fetch, publish, mark and crash keeps safety |
| Outbox.StepFollows | libs/go-pitwall/persistence/outbox.go:76-96 | sent and quarantined are terminal; id, payload and creation time never change |
| Outbox.AttemptsAreCharged | libs/go-pitwall/persistence/outbox.go:83-96 | over any run a row's attempts grow by exactly the quarantines and recorded publish failures charged to it |
| PublishOrder.StepKeepsOrder | libs/go-pitwall/relay/relay.go:124-152 | every step but such an enqueue keeps the order invariant |
| Outbox.SortedPendingIsQueue | libs/go-pitwall/persistence/outbox.go:53-74 | FetchPending lists exactly the pending rows, the older first and of one instant the lower id |
| Outbox.QueueIsUnique | libs/go-pitwall/persistence/outbox.go:58-59 | there is only one such list |
| Relay.Worker.constructor | libs/go-pitwall/relay/relay.go:67-78 | an empty table; batch 100 unless a positive one is given |
| Relay.Worker.Enqueue | libs/go-pitwall/persistence/outbox.go:38-48 | inserts a pending row with zero attempts, or fails on a known id |
| Relay.Worker.Handle | libs/go-pitwall/relay/relay.go:131-149 | one row: quarantine, or publish then mark; stops exactly on an unconfirmed publish or a status that cannot be written |
| Relay.Worker.DrainOnce | libs/go-pitwall/relay/relay.go:124-152 | settles exactly the longest prefix of the sorted batch before the first unconfirmed publish or unwritten status, counts its valid rows, touches nothing else, and is a run of the step machine |
| Relay.Worker.Flush | libs/go-pitwall/relay/relay.go:157-164 | one drain, then the number of rows still pending up to one batch; nothing sent when the fetch fails, nothing counted when the recount fails |
| Relay.DrainTakesThePrefix | libs/go-pitwall/relay/relay.go:124-152 | a healthy drain removes exactly the first batch from the pending queue |
| Relay.CeilManyDrainsEmpty | libs/go-pitwall/relay/relay.go:124-164 | n pending rows are gone after k healthy drains exactly when k is at least ceil(n / batch) |
| Relay.Worker.DrainHealthy | libs/go-pitwall/relay/relay.go:124-152 | k calls of DrainOnce with a healthy broker and store are those k drains |
| Relay.BackoffClosedForm | libs/go-pitwall/relay/relay.go:166-175 | the wait after k failures is the base doubled k times, capped at five seconds and never below the base |
| WireTime.TextOrderIsTimeOrder | libs/go-pitwall/messaging/envelope.go:18-27 | for all instants of years 0000 to 9999 string order is chronological order at millisecond precision, and equal strings are equal milliseconds |
| WireTime.ParseOfFormat | libs/go-pitwall/messaging/envelope.go:24-34 | parsing a formatted instant returns it truncated to the millisecond |
| WireTime.FormatOfParse | libs/go-pitwall/messaging/envelope.go:29-34 | formatting a parsed canonical string returns it |
| WireTime.AcceptedExactly | libs/go-pitwall/messaging/envelope.go:29-34 | a string of the layout's shape is accepted exactly when its fields are in range and its suffix is Z or a numeric offset; only with Z is it the text of its instant |
| WireTime.OffsetIsAccepted | libs/go-pitwall/messaging/envelope.go:29-34 | any formatted instant with its Z replaced by a numeric offset parses, as an instant that much earlier |
| WireTime.OffsetPartsTextFromTime | libs/go-pitwall/messaging/envelope.go:29-34 | for every instant, its body at -01:00 sorts before it and lies an hour after it |
| WireTime.CalendarOrder | libs/go-pitwall/messaging/envelope.go:22-27 | field-by-field calendar order is the order of time |
| WireTime.CivilOfIsExact | libs/go-pitwall/messaging/envelope.go:25-27 | the calendar fields are in range and denote exactly that millisecond |
| WireTime.DaysBeforeYearClosedForm | libs/go-pitwall/messaging/envelope.go:22-27 | the year recurrence is the Gregorian closed form |
| WireTime.MonthsStart | libs/go-pitwall/messaging/envelope.go:22-27 | the first day of each month, in common and leap years |
| Hub.KeepLatest | services/leaderboard/internal/web/server.go:136-179 | over every interleaving of broadcasts and reads a buffer has at most 8 frames, is a contiguous run of the broadcasts since the client joined, ends with the newest between broadcasts (or that one was read), and reads are an in-order subsequence |
| Hub.SecondSendNeverFails | services/leaderboard/internal/web/server.go:164-178 | after an eviction the second send always finds room |
| Hub.OneFramePerBroadcast | services/leaderboard/internal/web/server.go:160-179 | over any stretch of any run a client loses at most one frame per broadcast, and none until eight others were read or wait |
| Hub.StepKeepsGood | services/leaderboard/internal/web/server.go:143-179 | every join, leave, send, eviction and read keeps the invariant |
| Hub.Fanout.constructor | services/leaderboard/internal/web/server.go:141-141 | no clients |
| Hub.Fanout.Add | services/leaderboard/internal/web/server.go:143-149 | a new client with an empty buffer |
| Hub.Fanout.Remove | services/leaderboard/internal/web/server.go:151-158 | removes the client, no effect on an unknown one |
| Hub.Fanout.Broadcast | services/leaderboard/internal/web/server.go:160-179 | every client keeps the latest frame |
| Hub.PushTo | services/leaderboard/internal/web/server.go:164-178 | the buffer becomes a suffix of everything up to the new frame and ends with it; below capacity nothing is dropped, else at most one frame the reader did not take |

## Left out

- AMQP dialing, channels, pumps and the reconnect supervisor: the bus is modelled by delivery, duplication, reordering and crash steps.
- JSON encoding and contract validation: typed payloads and a fixed `valid` predicate; the field parsers of the Python consumer are part of that predicate.
- SHA-256, UUID generation, the random generator and clocks: a digest parameter (collisions allowed), supplied ids and supplied instants.
- Settlement.BothExactlyWhenUnsmooth: both dead-letter sinks are wired, as in production; without a retry sink a failing message is requeued for ever and never parks.
- The Python relay and the per-service copies of the retry policy: the Go relay is modelled, and the policy once.
- Configuration, logging, heartbeats, migrations, generated types, deployment and the React board: input and output, or easy members.
- PersonalRecord.RecordConvergesExactly: crashes of Driver are failed transactions and redeliveries; that a break once enqueued is delivered is a premise, not a liveness claim.
- Leaderboard.OrderDoesNotMatter: does not cover the instant of a best lap (see TieDependsOnOrder) nor its sequence number.
- DriverStore.HistoryBestIsFastest: rows equal in time and instant are not told apart, because the query does not order them further.
- WireTime.ParseWireTime: only strings with the layout's digits and separators up to the milliseconds; a one-digit hour and a comma before the fraction, which Go's parser tolerates, are not modelled.
- Laps.LapTracker.Cross: sub-millisecond instants are not modelled; the source truncates the difference to milliseconds.
- Capture.GenerateSession: trackers are values in a map instead of shared objects, and how crossing times are drawn is an input.
- Escalation.ParkedAtTheCap: a crash or a failed ack in the middle of settling the message is excluded, because the copy then comes back with the same header and the count starts over from it.
- LapArithmetic.BounceDeletionIsExact: equal events alone do not imply equal fates, because a dropped crossing that starts no lap leaves no event; the equivalence is for fates and events together.
- RunTrace.Simulator.Run: durable scanner-outage rows, held-scan reasons, pacing and the driver registration in Prepare are not modelled; record detection is always on.
- Registration.Resolver.Resolve: the loop is followed for any finite number of rounds; timers and log escalation are not modelled.
- Per-row timestamps that no decision reads (processed_at, updated_at, sent_at, last_error).
