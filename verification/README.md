# Membrane-AI: a verified model of the verdict path

MEMBRANE.AI analyses submitted diffs, stores a verdict and its outgoing event in one transaction, ships
the event to a bus, and notifies people through any number of reporter replicas. This project models that
path, and five self-contained cores around it, and proves what they promise.

## The verdict path

| file | what it holds |
|---|---|
| `verdict.dfy` | submissions, findings, verdicts; consolidation; cache keys |
| `saga.dfy` | the Saga: cache, stage chain, fallback, publishing (`class ProcessSubmission`, `class Cache`) |
| `outbox_protocol.dfy` | publish transactions, relay transactions and the bus as a transition system; its invariant over every run |
| `ordering.dfy` | exactly when rows reach the bus in id order, for everyone or one tenant; one relay and ordered commits are enough |
| `outboxstore.dfy`, `relay.dfy` | the store's methods against a shared database, with other processes acting between their statements; the relay loop |
| `reports.dfy` | what a consumed verdict becomes |
| `dispatch_protocol.dfy` | reporter replicas sharing a delivery log as a transition system: at-most-once, and what can be lost |
| `dispatch.dfy` | the in-memory delivery log and the dispatch loop, again with other replicas acting in between |
| `pipeline.dfy` | outbox, relays, bus and reporters as one system: every notification is audited |

There are two layers. The *protocol* modules describe single steps (`Step`, `Enabled`, `Apply`) and prove
invariants of every legal run; a step names everything left to chance, so a run is a list of steps. The
*method* modules follow the Go code statement by statement. Each method takes the actions of the other
processes as a function `others`, of which it is only known that they are protocol steps that are not its own
(`SparesPublisher`, `SparesRelay`, `Spares`), and shows that all its effects are protocol steps (`Since`), so the
invariants apply to any mixture of methods; for the composed system this is `Pipeline.MethodsAreAudited`. What the
method achieves is stated as well: what holds despite interference, such as when it reports an error, for any `others`, and its whole
effect when nobody interferes (`Idle`).

## The cores around it

| file | what it holds |
|---|---|
| `typosquat.dfy` | the firewall's O(n) "edit distance one" check against the full Levenshtein distance |
| `sorting.dfy`, `debtreport.dfy` | the technical-debt report: tallies in maps, rankings, caps, grades |
| `markdown.dfy` | the cell escaper, and splitting rendered rows again |
| `stores.dfy` | the in-memory and the file evidence store as one write-once map |
| `gate.dfy`, `scm.dfy` | the release gate from a raw status string to a commit status, and its idempotent publishing |
| `text.dfy` | trimming, separators, string order, UTF-8 |

## Assumptions

- Blake3 is injective: a cache key is identified with the bytes hashed. Claims about which run a cache hit repeats
  assume that no ruleset version in use contains NUL (`Separated`); `CacheKeyCollisions` says exactly when keys meet otherwise.
- Notifier names are distinct and contain no NUL (`DispatchProtocol.Valid`).
- JSON encoding is a bijection: payloads, stored evidence and decoded verdicts are identified with the values they encode.
- A stage, a notifier, a publisher may do anything; what one call does is a parameter (`faults`, `works`, functions
  in `Stage`). A missed stage deadline is a stage error. A commit, a produce or a log call that reports an error may or may not
  have taken effect. A notification that reports an error counts as not made.
- Postgres transactions are atomic, the claiming SELECT ... FOR UPDATE SKIP LOCKED is one atomic statement, generated keys are
  fresh. A call on the delivery log takes effect, if at all, before it returns. Log entries do not expire.
- Other orchestrators share the verdict cache: between the statements of a run they add pipeline runs of their own, cache what those
  yielded, and entries vanish (`SharesCache`). Only the claims that need it assume that they use NUL-free rulesets and,
  under the same ruleset, the same stages (`Compatible`).
- The reporters are handed what is on the bus: `from` names what one call, and the other replicas during it, may receive (`Pipeline.FromBus`).
- The Saga is given submissions that `NewSubmission` accepted, so their ids are not blank; the outbox may be used by other callers too
  (`Config.admits` says what callers promise).
- Strings are sequences of characters; package names and their distance are byte strings, and release ids are sanitized by the bytes of their
  UTF-8 encoding (ids are taken to be valid UTF-8). Case folding is a parameter of the firewall.

## Where the code does not do what it says

- `ports.DeliveryLog` and the dispatch loop promise that redelivery retries what has not succeeded. With a shared log a
  crash between mark and notify, an unmark that fails, or a mark that reports an error after taking effect leaves a key behind,
  and that notification is never made; every other undelivered one still can be (`OrphanedExactlyWhen`, `DeliverableExactlyWhen`,
  `CrashOrphans`). At-most-once does hold.
- `editDistanceWithin1` promises distance exactly one, but ranges over rune starts, so it misses a difference inside a multi-byte rune. It
  is right about a name, whatever it is compared with, exactly when no rune of the name takes more than one byte
  (`RightForNameExactlyWhen`, `SquattersAreCaughtExactlyWhen`, `NonAsciiMisses`).
- The gate is documented never to let ERROR or INCOMPLETE become PASS; that holds for the agent's status, but a code
  verdict of ERROR or INCOMPLETE is accepted by the builder and passes (`CodeVerdictMatters`, `ErrorVerdictPasses`). The command that
  builds evidence never produces these.
- The file store promises never to overwrite a record with different content, but takes a file it cannot read for a missing one: a put
  overwrites exactly when the read of an existing, different file fails and the write succeeds (`KeptExactlyWhen`, `FileStore.Put`).
- The file store hands out, or reports a conflict with, the record of another release whose sanitized name is the same
  (`FileStore.Put`, `FileStore.Get`, `OtherIdsCanMeet`). It is the in-memory store for a set of ids exactly when no two of them have the same
  sanitized name, as is the case for ids that sanitizing leaves unchanged (`StoresAgreeExactlyWhen`, `UnchangedShareNothing`, `AskBoth`).
- The idempotent publisher promises once per repository, commit, context and state, but its key can be read in more than one way:
  exactly when the repository holds an @, the commit an @ or #, or the context a #, a state can be posted twice in a row
  (`PlaceHasNoRepeatsExactlyWhen`, `KeyIsUniqueExactlyWhen`, `KeysCanCollide`).

## Limits that break no promise

The documentation either states these or claims nothing to the contrary.

- Rows can reach the verdict topic out of id order; strict per-tenant order is documented for the submission topic only. It happens exactly when
  a row is overtaken: committed when a larger id is on the bus, or passed by one that is shipped (`OrderBreaksExactlyWhen`, `OvertakenExactlyWhen`,
  `DeliveredInOrderExactlyWhen`). Several orchestrator replicas, each with its relay, can do this (`LateCommitReordersBus`, `TwoRelaysReorderBus`).
- A required stage behind the first one that fails discards what was found before, even a blocking finding: documented as the fallback, and the
  reason for `Optional`. A chain is free of it exactly when all stages but the first are optional (`FindingsKeptExactlyWhen`), and the program
  wires only such chains.
- When the fallback fails too the decision is needs_review, as documented; it falls short of the findings exactly when the fallback returned a
  blocking one along with its error (`DoubleFailure`, `DoubleFailureDowngrades`). The only fallback the program wires returns nothing then.
- A detail row of the Markdown report keeps its columns exactly when the severity, written as it is, holds no unescaped pipe
  (`DetailRowKeepsColumns`, `DetailRowCanBreak`). The detectors produce no such severity.
- A finding of unknown severity weighs two but is counted, and scored, as an info, so directory weights exceed the score's total
  by one for each (`Build`, `TotalsMeaning`).

## Model

| member | source | states |
|---|---|---|
| Verdicts.NewSubmission | services/orchestrator/internal/domain/verdict.go:44-64 | accepted exactly when submission id, organization and diff are not blank; the diff is kept verbatim, and every other text is its own argument, trimmed |
| Text.TrimSpaceMeaning | services/orchestrator/internal/domain/verdict.go:44-64 | trimming cuts blanks off both ends and nothing else, and leaves none there |
| Verdicts.StampThenStrip | services/orchestrator/internal/domain/verdict.go:123-143 | stripping undoes any stamping, leaves no identity, and a stripped verdict can be restamped for another submission without a trace of the first |
| Verdicts.Consolidate | services/orchestrator/internal/domain/verdict.go:147-160 | the loop with its early return yields the strictest decision: rejected exactly when a finding blocks, approved exactly when none blocks or warns, whatever the others are |
| Verdicts.StrictestOfBoth | services/orchestrator/internal/domain/verdict.go:145-160 | the decision of two lists together is the stricter of the two |
| Verdicts.StrictestIsMaximum | services/orchestrator/internal/domain/verdict.go:145-160 | the decision is at least as strict as every finding demands and some finding demands it |
| Verdicts.StrictestMonotone | services/orchestrator/internal/domain/verdict.go:145-160 | more findings never soften a decision |
| Verdicts.StrictestPermutation | services/orchestrator/internal/domain/verdict.go:145-160 | the order of findings does not matter |
| Verdicts.CacheKeySeparates | services/orchestrator/internal/domain/verdict.go:162-171 | NUL-free rulesets share a key only for the same diff and ruleset |
| Verdicts.CacheKeyCollisions | services/orchestrator/internal/domain/verdict.go:162-171 | exactly when two diff and ruleset pairs share a key |
| Verdicts.ApprovedIsClean | services/orchestrator/internal/domain/verdict.go:145-160 | an approved verdict the Saga may emit contains no warning and no blocking finding |
| Saga.AnalyzedIsEmittable | services/orchestrator/internal/app/process.go:106-162 | whatever stages and fallback do, the verdict is one the Saga may emit and carries the live submission's identity |
| Saga.ChainKeepsAll | services/orchestrator/internal/app/process.go:114-125 | the chain yields findings exactly when every stage succeeds on its own input, and keeps the findings of each |
| Saga.PipelineFindings | services/orchestrator/internal/app/process.go:113-132 | when every stage succeeds the verdict's findings are exactly those the stages return, one after the other in stage order, none invented, repeated or lost; if none of them warns or blocks the change is approved |
| Saga.AnalyzedIsReview | services/orchestrator/internal/app/process.go:106-162 | field by field what the verdict says: whose it is, from the pipeline exactly when every stage succeeds, and else from the fallback with the fallback's findings, plus one warning if that failed too |
| Saga.WiredChainDropsNothing | services/orchestrator/internal/app/optional.go:9-41 | in the wired chain (one required stage, then optional ones) no finding of a stage as wrapped is dropped and any blocking one rejects; a failed advisory stage shows as its warning, which replaces what it returned along with the error |
| Saga.RequiredStageDropsFindings | services/orchestrator/internal/app/process.go:116-120 | for any chain with a required stage behind the first there are stages with which a blocking finding is discarded and the change approved |
| Saga.FindingsKeptExactlyWhen | services/orchestrator/internal/app/process.go:114-121 | whatever stages, fallback and submission: a chain keeps every finding of the stages that ran, and rejects on a blocking one, exactly when all stages but the first are optional |
| Saga.DoubleFailure | services/orchestrator/internal/app/process.go:136-162 | the fallback is used exactly when a stage fails; if it fails too, review is demanded, and the decision falls short of its findings exactly when one of them blocks |
| Saga.DoubleFailureDowngrades | services/orchestrator/internal/app/process.go:136-162 | a fallback that returns a blocking finding with its error ends in needs_review |
| Saga.OptionalNeverFails | services/orchestrator/internal/app/optional.go:29-41 | an optional stage never fails: a failure becomes one warning that names it, in place of any findings returned with it, and a success passes through |
| Saga.DiffOnlyChain | services/orchestrator/internal/app/process.go:114-125 | stages that never fail and look only at the diff give the same findings on every run and every submission with that diff |
| Saga.SeesOneMore | services/orchestrator/internal/app/process.go:115-124 | after one more stage the input of the next is still the submission with the last non-empty masked diff |
| Saga.LastMaskMeaning | services/orchestrator/internal/app/process.go:115-124 | the diff the next stage is given is the last non-empty mask of the stages before it, and the submitted one if there is none |
| Saga.Cache.Get | services/orchestrator/internal/adapters/memorycache/cache.go:22-28 | the entry under the key, if any |
| Saga.Cache.Set | services/orchestrator/internal/adapters/memorycache/cache.go:30-36 | replaces the entry under the key and no other |
| Saga.ProcessSubmission.constructor | services/orchestrator/internal/app/process.go:29-70 | an empty ruleset version becomes v1, any other is kept |
| Saga.ProcessSubmission.RunFallback | services/orchestrator/internal/app/process.go:136-162 | computes the fallback verdict on the original submission, including the double failure |
| Saga.ProcessSubmission.Analyze | services/orchestrator/internal/app/process.go:106-134 | the findings of a pipeline verdict are exactly those of the stages in stage order, and the decision fits them; a clean chain approves; each stage that runs sees the submission with only its diff replaced by the last non-empty masked diff before it; falls back exactly at the first failing stage |
| Saga.ProcessSubmission.Lookup | services/orchestrator/internal/app/process.go:78-88 | a hit exactly when the cache can be read and holds the key of diff and ruleset, and then that entry for the live submission; it repeats a pipeline run made before on the same diff and ruleset |
| Saga.ProcessSubmission.AnalyzeAndCache | services/orchestrator/internal/app/process.go:91-98 | only pipeline verdicts are cached, stripped, under the key of the original diff |
| Saga.ProcessSubmission.Conclude | services/orchestrator/internal/app/process.go:77-98 | cache first, then the pipeline, with other orchestrators acting on the cache before its read and before its write: what is concluded is from the cache exactly when an entry can be read, is emittable, for the live submission, and a repeated or a fresh run; the cache afterwards is stated exactly |
| Saga.ProcessSubmission.Handle | services/orchestrator/internal/app/process.go:72-104 | on every path, with cache errors, evictions, other orchestrators and stage failures: no error exactly when no statement of the transaction failed; the verdict handed over is emittable and for the live submission, a hit repeats an earlier run, a pipeline verdict holds exactly the findings of the stages, with diff-only stages it equals a fresh one, the history grows by the run, and what the next call relies on is kept |
| Saga.ProcessSubmission.Serve | services/orchestrator/internal/adapters/kafkabus/consumer.go:57-116 | over any run of Handle: all of this for every record, every cache entry anonymous and from the pipeline, every hit a repetition of a run made before it |
| Saga.ProcessSubmission.RepeatIsFresh | services/orchestrator/internal/app/process.go:80-88 | with diff-only stages a repeated run equals what a fresh run would publish, but for source and time |
| OutboxProtocol.SelectPendingMeaning | services/orchestrator/internal/adapters/outboxstore/store.go:101-107 | a claim takes available rows in id order, at most the limit, skipping none |
| OutboxProtocol.CommitPairs | services/orchestrator/internal/adapters/outboxstore/store.go:62-85 | committing a publish transaction keeps audit and outbox rows in one-to-one correspondence |
| OutboxProtocol.ClaimKeepsInv | services/orchestrator/internal/adapters/outboxstore/store.go:101-131 | a claim skips locked rows, so open claims stay disjoint |
| OutboxProtocol.ProduceKeepsInv | services/orchestrator/internal/adapters/outboxstore/store.go:136-148 | producing a row keeps the invariant |
| OutboxProtocol.CommitRelayKeepsInv | services/orchestrator/internal/adapters/outboxstore/store.go:149-156 | a relay's commit marks only pending rows that are on the bus, and leaves other claims alone |
| OutboxProtocol.StepKeepsInv | services/orchestrator/internal/adapters/outboxstore/store.go:43-157 | every step of every transaction keeps the invariant |
| OutboxProtocol.StepKeeps | services/orchestrator/internal/adapters/outboxstore/store.go:43-157 | no step deletes or rewrites an audit row, an outbox row, a publication mark or a bus record |
| OutboxProtocol.BusCarriesRows | services/orchestrator/internal/adapters/outboxstore/store.go:136-148 | every record on the bus is a stored row, on the verdict topic, under its tenant, with its payload and, if they parse, its headers |
| OutboxProtocol.AuditTellsOfRows | services/orchestrator/internal/adapters/outboxstore/store.go:43-86 | every outbox row has an audit row with its verdict's submission, tenant, decision, source, ruleset and number of findings |
| OutboxProtocol.EveryRunIsSafe | services/orchestrator/internal/adapters/outboxstore/store.go:43-157 | at every point of every run: disjoint claims, rows marked at most once and only when on the bus, every bus record and audit row the verdict's, field by field, audit and outbox in one-to-one correspondence, nothing recorded ever lost |
| Ordering.OrderlyStep | services/orchestrator/internal/adapters/outboxstore/store.go:101-156 | one relay and ids committed in order: claims without gaps and published rows a prefix, after every step |
| Ordering.OrderBreaksExactlyWhen | services/orchestrator/internal/adapters/outboxstore/store.go:136-148 | one step breaks the order exactly when it ships an overtaken row |
| Ordering.OvertakenExactlyWhen | services/orchestrator/internal/adapters/outboxstore/store.go:68-148 | a row is overtaken exactly by a commit behind a larger id on the bus or a shipment past it, and until it is shipped itself |
| Ordering.BusInOrderExactlyWhen | services/orchestrator/internal/adapters/outboxstore/store.go:101-156 | over every run: first occurrences are in id order exactly when no overtaken row was ever shipped |
| Ordering.DeliveredInOrderExactlyWhen | services/orchestrator/internal/adapters/outboxstore/store.go:68-157 | over every run after which all committed rows are delivered: first occurrences are in id order exactly when no row was ever overtaken |
| Ordering.BusKeepsIdOrder | services/orchestrator/internal/adapters/outboxstore/store.go:101-156 | in every such run, despite failures and replays, rows on the bus are a prefix of the committed ids and first occurrences are in id order, together and per tenant |
| Ordering.LateCommitReordersBus | services/orchestrator/internal/adapters/outboxstore/store.go:68-85 | a run with one relay in which a late commit puts a smaller id behind a larger one |
| Ordering.TwoRelaysReorderBus | services/orchestrator/internal/adapters/outboxstore/store.go:101-148 | a run with ids committed in order in which two relays reorder the bus |
| OutboxStore.Store.Publish | services/orchestrator/internal/adapters/outboxstore/store.go:41-86 | takes only protocol steps; success, exactly when nothing fails, means a new outbox row holds the verdict and is paired with its audit row; undisturbed it writes both rows, stated field by field, or neither, and an error with rows written means an unacknowledged commit |
| OutboxStore.Store.ClaimRows | services/orchestrator/internal/adapters/outboxstore/store.go:101-131 | claims and reads exactly the first available rows, and fails exactly when a row or the end of the rows cannot be read; an error leaves the database as it was |
| OutboxStore.Store.Scan | services/orchestrator/internal/adapters/outboxstore/store.go:119-131 | what is read of the claimed rows is what they hold, in claim order; fails exactly when one cannot be read |
| OutboxStore.Store.ProduceOne | services/orchestrator/internal/adapters/outboxstore/store.go:137-147 | ships the claimed row's own topic, key, payload and headers, field by field, a malformed headers blob as none, although others act since the scan |
| OutboxStore.Store.ProduceAll | services/orchestrator/internal/adapters/outboxstore/store.go:136-148 | produces the claimed rows in id order up to the first failure, and fails exactly when there is one |
| OutboxStore.Store.MarkAndCommit | services/orchestrator/internal/adapters/outboxstore/store.go:149-156 | success, exactly when neither statement fails, means every id is published and on the bus; a failure marks nothing unless the commit went unacknowledged |
| OutboxStore.BatchMeaning | services/orchestrator/internal/adapters/outboxstore/store.go:136-156 | what an undisturbed batch comes to: one record for each row, in order, on the verdict topic with the row's tenant, payload and headers, and these rows marked, no other changed |
| OutboxStore.Store.PublishPending | services/orchestrator/internal/adapters/outboxstore/store.go:88-157 | takes only protocol steps and ends its transaction; success exactly when no statement on the way fails, and then the rows counted are published and on the bus; disturbed or not, every record on the bus is a stored row under its topic, tenant and headers; undisturbed, success ships and marks exactly the first pending rows in id order, field by field, and failure ships a first part of them at most and marks nothing unless the commit went unacknowledged |
| RelayLoop.Relay.constructor | services/orchestrator/internal/adapters/outboxstore/relay.go:31-40 | non-positive interval and batch become 500 and 100 |
| RelayLoop.Relay.Tick | services/orchestrator/internal/adapters/outboxstore/relay.go:51-62 | an undisturbed tick ships the first min(batch, pending) rows |
| RelayLoop.Relay.Run | services/orchestrator/internal/adapters/outboxstore/relay.go:42-64 | after n undisturbed ticks the first min(n times batch, pending) rows are on the bus in id order and the rest still pending, and the outbox is empty exactly from ceil(pending / batch) ticks on; errors never break the invariant |
| RelayLoop.DrainsInCeilTicks | services/orchestrator/internal/adapters/outboxstore/relay.go:42-64 | a database that made this progress has nothing pending exactly when at least ceil(k / batch) ticks have passed, k being the rows pending at the start |
| RelayLoop.BatchTakesFirst | services/orchestrator/internal/adapters/outboxstore/store.go:101-156 | one batch takes exactly the first rows off the pending list |
| Reports.ReportRefused | services/reporter/internal/domain/report.go:71-110 | refused exactly for a blank submission id or an unknown decision |
| Reports.ReportCarries | services/reporter/internal/domain/report.go:71-110 | whatever the outcome, the report is about the verdict's submission, tenant, repository, commit and pull request; the outcome follows from the decision, softened in shadow mode |
| Reports.SagaVerdictsAreReported | services/reporter/internal/domain/report.go:71-110 | no verdict of the Saga is refused; success only for approvals, hence clean verdicts; failure only for rejections outside shadow mode |
| DispatchProtocol.KeyInjective | services/reporter/internal/adapters/memorylog/memorylog.go:20-20 | a log key stands for one submission and notifier |
| DispatchProtocol.StepKeepsInv | services/reporter/internal/app/dispatch.go:41-56 | every step of every replica keeps: held keys are logged, undelivered and held once; delivered pairs are logged and occur once |
| DispatchProtocol.NotifiedAtMostOnce | services/reporter/internal/app/dispatch.go:41-56 | over every interleaving, crash, failure and redelivery no pair is notified successfully twice |
| DispatchProtocol.OrphanedExactlyWhen | services/reporter/internal/app/dispatch.go:41-56 | exactly which steps leave a key in the log that no one delivered or works on, and that it stays so |
| DispatchProtocol.OrphanedForGood | services/reporter/internal/app/dispatch.go:41-56 | such a notification is never made in any continuation |
| DispatchProtocol.DeliverableExactlyWhen | services/reporter/internal/app/dispatch.go:41-56 | an undelivered pair can still be delivered, without further faults, exactly when it is not orphaned |
| DispatchProtocol.CrashOrphans | services/reporter/internal/app/dispatch.go:42-51 | a crash between mark and notify is enough |
| Dispatcher.Log.MarkIfNew | services/reporter/internal/adapters/memorylog/memorylog.go:22-32 | true exactly when the key was absent; afterwards it is present and nothing else changed |
| Dispatcher.Log.Unmark | services/reporter/internal/adapters/memorylog/memorylog.go:34-40 | removes the key and nothing else |
| Dispatcher.DispatchVerdict.MarkNext | services/reporter/internal/app/dispatch.go:43-50 | the mark call, with its failures, is one protocol step: mark, skip or failed mark |
| Dispatcher.DispatchVerdict.NotifyNext | services/reporter/internal/app/dispatch.go:51-51 | the notification is one protocol step, recorded exactly when it succeeds |
| Dispatcher.DispatchVerdict.UnmarkNext | services/reporter/internal/app/dispatch.go:52-54 | the unmark, whose error is ignored, is one protocol step |
| Dispatcher.DispatchVerdict.Deliver | services/reporter/internal/app/dispatch.go:51-56 | from the mark on: moves to the next notifier, failed exactly when the notification is, and undisturbed a failure leaves no mark |
| Dispatcher.DispatchVerdict.One | services/reporter/internal/app/dispatch.go:42-56 | one turn of the loop takes only protocol steps; whatever fails and whoever interferes it fails exactly when the mark or the notification it tried does, and otherwise has delivered or found the key in the log; undisturbed it skips a marked notifier and otherwise notifies it, leaving the mark exactly on success |
| Dispatcher.DispatchVerdict.WorkThrough | services/reporter/internal/app/dispatch.go:41-56 | the loop takes only protocol steps and counts exactly the turns that failed; every other turn delivered or found the key in the log; undisturbed, it keeps the tally of calls, successes and failures described by Progress |
| Dispatcher.DispatchVerdict.Handle | services/reporter/internal/app/dispatch.go:32-61 | takes only protocol steps; an invalid verdict changes nothing and is an error; whatever fails and whoever interferes, no error exactly when no mark failed and every notifier called was notified, and else the number of turns that failed; on a single replica with a working log the log stays exactly the set of delivered pairs, only notifiers without an earlier success are called, and no error is returned exactly when every notifier has succeeded |
| Dispatcher.DispatchVerdict.HandleAll | services/reporter/internal/adapters/kafkabus/consumer.go:50-116 | over any sequence of calls on a single replica: with a working log it stays the set of delivered pairs, a call without error means every notifier was notified exactly once for its submission over the whole history, and who has succeeded is not called again; with a failing log a call without error means every notifier was notified or is orphaned |
| Dispatcher.TurnMeaning | services/reporter/internal/app/dispatch.go:42-56 | an undisturbed turn keeps the log equal to the history and adds at most the pair at hand |
| Pipeline.StepKeepsInv | services/orchestrator/internal/adapters/outboxstore/store.go:62-85 | every step of the composed system keeps every report traceable to a committed outbox row |
| Pipeline.NotificationsAreAudited | services/orchestrator/internal/adapters/outboxstore/store.go:62-85 | over every run of Saga publishes, relays, bus and reporters: every notification is about a committed verdict, with its submission, tenant, repository, commit and pull request, an outcome its decision explains and an audit row that tells of it, a success only with clean findings, and none is made twice |
| Pipeline.MethodsAreAudited | services/reporter/internal/adapters/kafkabus/consumer.go:50-116 | whatever calls of store, Saga, relays and reporters follow one another, each reporter call receiving what is on the bus by then, they make a run of the composed system, so every notification is audited |
| Typosquat.LevSymmetric | services/gateway/internal/domain/policy.go:163-165 | the reference distance is symmetric |
| Typosquat.LevOneIsOneEdit | services/gateway/internal/domain/policy.go:163-165 | distance one means one byte changed, or one added on either side |
| Typosquat.LevByHamming | services/gateway/internal/domain/policy.go:174-185 | at equal lengths distance at most one is at most one differing byte |
| Typosquat.LevByInsertion | services/gateway/internal/domain/policy.go:186-192 | at lengths one apart distance at most one is the greedy alignment |
| Typosquat.RightForNameExactlyWhen | services/gateway/internal/domain/policy.go:163-193 | the check is right about a name, whatever it is compared with, exactly when no rune of the name takes more than one byte |
| Typosquat.SquattersAreCaughtExactlyWhen | services/gateway/internal/domain/policy.go:154-193 | under the same condition, and no other, a name squats a popular one just if a single edit turns one into the other |
| Typosquat.Within1IsDistanceOne | services/gateway/internal/domain/policy.go:163-193 | for a first name of single bytes, such as an ASCII one, or different lengths the shortcut is distance one, symmetrically |
| Typosquat.NonAsciiMisses | services/gateway/internal/domain/policy.go:174-185 | two accented letters one byte apart are missed, and the answer can depend on the order |
| Markdown.ArmedByOddRun | clients/cli/internal/report/markdown.go:85-87 | a pipe counts as escaped exactly behind an odd run of backslashes |
| Typosquat.RuneWidth | services/gateway/internal/domain/policy.go:176-176 | a decoded rune takes one to four bytes and stays inside the string |
| Typosquat.RuneWidthDecodes | services/gateway/internal/domain/policy.go:176-176 | a rune is as wide as the UTF-8 encoding of the character found there, and one byte where there is none |
| Typosquat.SeenExactlyWhen | services/gateway/internal/domain/policy.go:174-185 | what the loop counts: the bytes that differ where a rune of the first name starts |
| Typosquat.EditDistanceWithin1 | services/gateway/internal/domain/policy.go:163-193 | for names of one length true exactly when the bytes differ at one rune start of the first; in any case distance one for a first name of single bytes or different lengths, and exactly for the reliable pairs |
| Typosquat.NearMiss | services/gateway/internal/domain/policy.go:154-161 | equal names are no near miss |
| Typosquat.Contains | services/gateway/internal/domain/policy.go:145-152 | whether some listed name equals the target under folding |
| Typosquat.ContainsExactlyWhen | services/gateway/internal/domain/policy.go:124-128 | a part is contained exactly when the name from some place on starts with it |
| Typosquat.ScreenPackage | services/gateway/internal/domain/policy.go:113-134 | each verdict is given exactly when its ground applies and no earlier one does: listed, one edit from a popular name as the check sees it, a risky part anywhere in the lowered name, missing from an allow list; an allowed name that is ASCII, or has no wide rune, is never one edit away from a popular name |
| Sorting.SortPermutes | clients/cli/internal/report/report.go:173-183 | sorting keeps exactly the elements |
| Sorting.SortOrders | clients/cli/internal/report/report.go:173-183 | no element comes before one that must precede it |
| Sorting.SortStable | clients/cli/internal/report/report.go:174-183 | elements that compare alike keep their order |
| Sorting.StableSortIsSort | clients/cli/internal/report/report.go:173-183 | an ordered list that keeps the order of elements that compare alike is the sorted one: the result of a stable sort is determined |
| Sorting.StrictUnique | clients/cli/internal/report/report.go:255-267 | a strict arrangement is unique, so map iteration order cannot show |
| DebtReport.RowsConserve | clients/cli/internal/report/report.go:121-157 | the tallies of any distinct names covering the findings add up to the totals |
| DebtReport.StatCounts | clients/cli/internal/report/report.go:129-157 | a tally counts the findings with its key by severity, unknown ones as infos, and weighs them 5, 2, 1 and 2 |
| DebtReport.RankingUnique | clients/cli/internal/report/report.go:269-308 | there is one ranking of directories and of files |
| Text.LessExactlyWhen | clients/cli/internal/report/report.go:255-308 | the order of names: smaller where two first differ, or a proper prefix |
| DebtReport.RankingIsTable | clients/cli/internal/report/report.go:269-308 | a ranking has one such tally for every key, heaviest first, alike ones by name |
| DebtReport.RankingIsRuleTable | clients/cli/internal/report/report.go:255-267 | likewise for rules: how often each was broken, most often first, with the severity of its first finding |
| DebtReport.RankingConserves | clients/cli/internal/report/report.go:269-279 | a ranking adds up to the totals |
| DebtReport.CapConserves | clients/cli/internal/report/report.go:280-289 | folding the rows past the cap into one row loses nothing |
| DebtReport.TotalsMeaning | clients/cli/internal/report/report.go:140-168 | severity counts add up to the findings; summed weights exceed 5B+2W+I by the number of unknown severities |
| DebtReport.RulesConserve | clients/cli/internal/report/report.go:255-267 | the rule counts add up to the number of findings |
| DebtReport.GradeMonotone | clients/cli/internal/report/report.go:216-244 | the grade never improves with weight nor worsens with more scanned files, and is A exactly without findings |
| DebtReport.GradeMeaning | clients/cli/internal/report/report.go:216-244 | the grade by weighted findings per hundred files, ten files at least: none, under 5, under 15, under 40 or more |
| DebtReport.RankMeaning | clients/cli/internal/report/report.go:191-214 | blocking ranks before, and info behind, everything else; warnings and unknown severities rank alike |
| DebtReport.CountIn | clients/cli/internal/report/report.go:129-157 | one more finding updates a map of tallies to the tallies of one more finding |
| DebtReport.CountRule | clients/cli/internal/report/report.go:122-127 | likewise for rules, which keep the severity of their first finding |
| DebtReport.FirstSeverityMeaning | clients/cli/internal/report/report.go:122-127 | a rule shows the severity of the first finding that breaks it |
| DebtReport.TallyAll | clients/cli/internal/report/report.go:118-157 | the pass leaves exactly the tallies by rule, directory and file, and the totals |
| DebtReport.SortRules | clients/cli/internal/report/report.go:255-267 | yields the ranking of the rules |
| DebtReport.SortDirs | clients/cli/internal/report/report.go:269-291 | yields the ranking of the directories with the rows past fifteen folded into one |
| DebtReport.SortFiles | clients/cli/internal/report/report.go:293-308 | yields the first ten of the ranking of the files |
| DebtReport.Build | clients/cli/internal/report/report.go:105-189 | every table is a cut of the unique ranking, and its rows say what they count; totals, rule counts and directory rows are conserved; at most 15 directories and one folded row, ten files and 200 details; the detail list is the start of the severity-first order and the rest is counted; the score is the weighted total per hundred files |
| DebtReport.DetailCutIsFair | clients/cli/internal/report/report.go:171-187 | every kept row ranks at least as high as every cut row, so no blocking row is cut while a lesser one stays |
| DebtReport.DetailIsStable | clients/cli/internal/report/report.go:171-187 | the detail list is the start of whatever a stable sort by rank returns |
| DebtReport.RankingCutIsFair | clients/cli/internal/report/report.go:293-308 | whatever is outside a table weighs no more than anything in it |
| Markdown.PassesAreCharacterwise | clients/cli/internal/report/markdown.go:83-98 | the four passes do not disturb one another |
| Markdown.UnescapeRecovers | clients/cli/internal/report/markdown.go:83-98 | unescaping recovers each cell up to control characters and backticks |
| Markdown.CleanMeaning | clients/cli/internal/report/markdown.go:83-98 | cleaning makes control characters spaces and backticks quotes, and leaves every other character |
| Markdown.EscapedIsHarmless | clients/cli/internal/report/markdown.go:83-98 | escaped text holds no control character and no backtick |
| Markdown.EscapedIsWhole | clients/cli/internal/report/markdown.go:83-98 | escaped text neither contains a cell break nor arms or disarms one after it |
| Markdown.RowRoundTrip | clients/cli/internal/report/markdown.go:83-98 | any list of cells, escaped and joined with pipes, splits back into exactly those cells |
| Markdown.JoinSplitsExactlyWhen | clients/cli/internal/report/markdown.go:66-74 | parts joined with raw pipes split back into exactly themselves if and only if none holds an unescaped pipe |
| Markdown.DetailRowKeepsColumns | clients/cli/internal/report/markdown.go:66-74 | whatever file, rule, message and excerpt say, a detail row keeps its columns exactly when the raw severity holds no unescaped pipe |
| Markdown.DetailRowReads | clients/cli/internal/report/markdown.go:66-74 | read back, a row that keeps its columns has file, line, severity, rule, message and excerpt in this order |
| Markdown.DetailRowCanBreak | clients/cli/internal/report/markdown.go:66-74 | a severity a|b adds a column |
| EvidenceStores.StoredForGood | pkg/assurance/store.go:15-26 | over any sequence of puts a stored record never changes; the same record is accepted again without effect, any other conflicts |
| EvidenceStores.ListingUnique | pkg/assurance/store.go:28-36 | there is one newest-first listing, whatever the iteration order |
| EvidenceStores.MemStore.Put | pkg/assurance/store.go:47-64 | is the put of the write-once map |
| EvidenceStores.MemStore.Get | pkg/assurance/store.go:66-75 | is the get of the write-once map |
| EvidenceStores.MemStore.List | pkg/assurance/store.go:77-95 | yields the listing of the stored records |
| EvidenceStores.SafeFileName | pkg/assurance/store.go:193-210 | replaces exactly the unsafe bytes, each by an underscore, and an empty result by a fixed token |
| EvidenceStores.UnchangedExactlyWhen | pkg/assurance/store.go:193-210 | an id is left unchanged exactly when it is not empty and all its characters are safe ASCII |
| EvidenceStores.FileStore.Put | pkg/assurance/store.go:120-144 | no stored file changes, exactly unless a failed read lets a different record be overwritten; is the put of the write-once map exactly when the file is not another release's and that does not happen |
| EvidenceStores.PutFileMeaning | pkg/assurance/store.go:120-144 | refused, conflict or failed exactly in which cases, and what the directory holds afterwards |
| EvidenceStores.KeptExactlyWhen | pkg/assurance/store.go:132-142 | what is stored stays as it is exactly unless the record's file exists, differs, cannot be read and can be written |
| EvidenceStores.PutFileExactlyWhen | pkg/assurance/store.go:122-144 | a put that takes effect or is refused is that of the write-once map exactly when the file is not another release's and nothing is overwritten |
| EvidenceStores.FilesStoredForGood | pkg/assurance/store.go:99-142 | over every sequence of puts whose reads work, whatever writes fail, a stored file never changes |
| EvidenceStores.FileStore.Get | pkg/assurance/store.go:146-157 | is the get of the write-once map exactly when the file is not another release's, which it never is over unchanged ids |
| EvidenceStores.FileStore.List | pkg/assurance/store.go:159-183 | yields the listing of the stored records |
| EvidenceStores.UnchangedIdsAreAlone | pkg/assurance/store.go:116-118 | over ids that sanitizing leaves unchanged no two releases share a file |
| EvidenceStores.StoresAgreeExactlyWhen | pkg/assurance/store.go:17-26 | for any set of storable ids and any puts over them, the file store agrees with the map on contents, gets and puts exactly when no two of the ids have the same sanitized name |
| EvidenceStores.AskBoth | pkg/assurance/store.go:17-36 | any puts, gets and lists over ids of which no two share a file are answered alike by both stores |
| EvidenceStores.OtherIdsCanMeet | pkg/assurance/store.go:116-118 | records stored for a/b and for an accented letter are handed out for a_b and for two underscores |
| Gate.NormalizedMeaning | pkg/assurance/status.go:179-200 | however a status is cut into blanks, a trimmed core and blanks, its normal form is the upper-cased core |
| Gate.NormalizeStatus | pkg/assurance/status.go:182-200 | the loops trim spaces and tabs and upper-case ASCII letters |
| Gate.UpperMeaning | pkg/assurance/status.go:190-198 | small ASCII letters become capitals and nothing else changes |
| Gate.CombinedGate | pkg/assurance/builder.go:107-145 | the branches yield the stricter of the agent's and the code's decision, with the rules of both sides |
| Gate.CombinedDecides | pkg/assurance/builder.go:107-145 | exactly which statuses and code verdicts lead to each decision |
| Gate.RulesCited | pkg/assurance/builder.go:107-145 | exactly when each rule is cited |
| Gate.BuilderNeverContradictsItself | pkg/assurance/builder.go:47-100 | assembled evidence never violates the validator's two fail-safe invariants; a build is refused only for the input's own fields |
| Gate.EvidenceExactlyWhen | pkg/assurance/builder.go:47-100 | from the raw status to status and decision of the evidence, each exactly when |
| Gate.EvidenceCarries | pkg/assurance/builder.go:47-100 | built evidence carries the input's fields, each in its own place |
| Gate.FieldsMeaning | pkg/assurance/contract.go:206-276 | the field checks pass exactly when no identifier is blank, the commit is 7 to 64 hexadecimal digits, and there are a time, a scenario and listed values |
| Gate.CorrelationMeaning | pkg/assurance/contract.go:38-63 | likewise for the correlation context |
| Gate.SuccessExactlyWhen | pkg/assurance/scm.go:47-100 | from raw status to commit state: exactly when it is success and exactly when it is failure, and pending else; never failure in shadow mode |
| Gate.CodeVerdictMatters | pkg/assurance/builder.go:110-145 | success implies a PASS code verdict exactly when that verdict is not ERROR or INCOMPLETE or the agent's status is not clean |
| Gate.ErrorVerdictPasses | pkg/assurance/builder.go:47-145 | the builder accepts an input with a code verdict of ERROR or INCOMPLETE whose commit status is success |
| Scm.IdempotentPublisher.Publish | pkg/assurance/scm.go:146-164 | delivers exactly when the publisher works and the state is not the last accepted one; the log keeps holding the last accepted state per key |
| Scm.PublishAll | pkg/assurance/scm.go:146-164 | any calls on a new publisher, whatever fails, leave the log the function describes |
| Scm.AcceptedHasNoRepeats | pkg/assurance/scm.go:131-164 | over any calls and failures no key is accepted in one state twice in a row |
| Scm.AcceptedIsCompressed | pkg/assurance/scm.go:131-164 | without failures exactly the input is accepted with consecutive repeats per key removed |
| Scm.CompressMeaning | pkg/assurance/scm.go:131-164 | compressing leaves no repeats, keeps the last state, and changes nothing where there are no repeats |
| Scm.KeyIsUniqueExactlyWhen | pkg/assurance/scm.go:149-149 | a key stands for one repository, commit and context, whatever else is published, exactly when the repository holds no @, the commit neither @ nor #, and the context no # |
| Scm.PlaceHasNoRepeatsExactlyWhen | pkg/assurance/scm.go:131-164 | over any calls and failures no state is accepted twice in a row for a repository, commit and context, exactly under that condition |
| Scm.EvidencePlaceIsClear | pkg/assurance/scm.go:47-100 | for valid evidence that condition comes to a repository without @ |
| Scm.KeysCanCollide | pkg/assurance/scm.go:149-149 | two places that share a key |

## Left out

- Kafka, Redis, Postgres, gRPC and HTTP adapters: the bus is an append-only log read in any order any number of times, the database is
  atomic transactions with row locks, Redis is the abstract cache or delivery log; consumer offsets are not modelled.
- Expiry of delivery-log entries: at-most-once is stated without it. Expiry of cache entries is modelled as eviction.
- Detectors and masking: a stage is an arbitrary function; that masked text matches no pattern is not claimed.
- Trace headers beyond being stored and shipped; report titles and bodies; error texts beyond the failing operation of the store.
- The order in which validators report several faults at once, evidence fields that are only passed through, and the filtering of
  critical scenarios.
- Modes other than shadow: any other mode string behaves as enforce and is modelled as such.
- Concurrent calls of the idempotent publisher, whose check and update are separate critical sections.
- File-system faults other than a read that fails during a put and a write that leaves nothing behind: torn writes, and failing reads in get
  and list, which report them; case-insensitive file systems.
- Floating point: the debt score and the grade thresholds are exact.
- Tool-call evaluation and shadow-agent classification in the gateway, the other table renderers, and the HTML report: easy members.
- Stores and caches are modelled between calls; their mutexes make each call atomic.
