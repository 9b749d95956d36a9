# Verified model of the proof, payout and queue logic

Users submit photo proofs for tasks. A proof is decided by the verification worker, by a quorum of community
validators or by an admin; an approval claims one of the task's completion slots and writes a payout row and a
notification row in the same transaction, and two sweepers carry those rows to their queues. This project models
that logic in Dafny and proves what holds of it in every interleaving, together with the smaller algorithms around
it: keyset pagination and its cursors, the rate limiter, the audit queue and its redaction, queue trimming, the
amount printers, the log serialiser, and the clean-up of uploaded photos.

Run `dafny verify dfyconfig.toml` to check everything.

## How it is organised

| files | content |
|---|---|
| `Common`, `Batch`, `Backoff` | options, listings of sets, row selection of a batch, the shared back-off |
| `Tally`, `Store`, `Decisions` | the vote count; the rows and every transaction as a function from store to store, or an abort; what each transaction leaves of the rows, column by column |
| `Database` | the same transactions as the services run them, statement by statement on mutable tables, each proved equal to its function |
| `Protocol`, `ProtocolSafety`, `ProtocolTheorems`, `QuorumKept`, `VoteCredit`, `QuorumBacked`, `VoteRaces`, `DecisionRuns` | every suspended call as a value, one database statement or transaction per step, any number of calls, crashes at any point, and admins' task edits; invariants and theorems over all runs |
| `PayoutOutbox`, `PayoutPaid`, `PayoutRuns` | the payout outbox as interleaved drains and workers, with every read, write and external call its own step and queue jobs by id; its bounds, when PAID is kept, and runs that show both to be exact |
| `NotificationOutbox`, `NotificationBounds`, `NotificationRuns` | the notification outbox in the same way |
| `PayoutTable`, `NotificationTable`, `PayoutAlone`, `NotificationAlone` | the drains and the payment job run alone, as loops over mutable rows; that a run of the interleaved outbox by one call alone ends on the same rows |
| `Submission`, `SubmissionRaces` | one submission with its compensation; any number of them racing on one photo table and one content-addressed store |
| `Listing`, `Cursor`, `JsonText`, `Utf8Base64` | pagination over a changing table; cursor tokens down to bytes |
| `RateLimiter`, `AuditQueue`, `AuditRedaction`, `QueueMaintenance`, `RewardAmount`, `LogSerializer` | one component each |

A read that the code makes outside a transaction is a step of its own, so what a call carries may be out of date
when it acts on it. The read inside `finalizeProof`'s transaction is its own step too, because at READ COMMITTED
its value may be stale when the guarded update runs.

## Where the code keeps less than its documentation says

The model follows the code. Each point names the exact condition and a run or input that shows it:

- `src/models/task.ts:124-132` has a slot claimed only with an approval. `reviewProof` and `finalizeProof` commit a
  claimed slot even when their status update then matches no row, so the count can exceed the payouts:
  `CompletionsConserved`, `GapWidensIff`, `CountMayExceedPayouts`.
- A task update may put a task's maximum or status out of step with its count. Capacity holds if and only if the
  last edit left it so: `Capacity`, `CapacityWithoutEdits`. The answer 409 for a full task
  (`src/controllers/proofController.ts:67-69`) is given exactly to claim holders of such a task that is still ACTIVE:
  `RefusedAsFullIff`, `RefusedOnlyAfterEdit`, `RefusedAfterEdit`.
- The worker writes its verdict without a status guard, so it can replace a final verdict: `VerdictReplacedIff`,
  `VerdictOverturned`.
- Two last voters who race can both escalate a proof, and both credit its voters: `BallotEscalatedTwice`. A proof
  gets its second escalation row exactly when it has one and another escalation of it is written:
  `SecondEscalationIff`, and that write always commits: `EscalationRepeats`. What review counts add up to is
  `ReviewsConserved`.
- `src/services/validatorService.ts:130-143` refuses a second vote of a validator, but checks before it writes, so a
  cast vote can be replaced by the same validator's racing vote, also after the decision: `VoteReplacedIff`,
  `VoteChangedAfterDecision`. The votes that decided are kept in the model: `QuorumVerdictsBacked`.
- `src/services/validatorService.ts:310-314` always answers that the proof was finalized, and with the requested
  status when it was not this call that decided. That is the stored status if and only if the proof was undecided
  or had already come to that status: `AnswerAgreesIff`.
- `prisma/schema.prisma:186` promises at most one payout per proof. One row per proof is what is kept; payments can
  be submitted up to 1 + maxAttempts times when drains do not overlap, and that bound is attained: `BoundAttained`.
  The sweeper's claim (`src/services/rewardPayoutSweeper.ts:46-50`) writes PENDING over PENDING and excludes no one, so
  overlapping drains go beyond it: `OverlapExceedsBound`. The bound holds in every run in which drains write only to
  rows whose attempt count is still the one they read: `SubmissionsBoundedCurrent`, `LosesAttemptIff`. The weakest
  bookkeeping behind it is `CoveredIff`.
- Even with a single drain a PAID row can become PENDING and be paid again: `PaidIsPaidAgain`. PAID is kept if and
  only if no write by id lands on the row out of turn (`PaidKeptIff`); two guards ensure that:
  `PaidIsFinalWhenGuarded`.
- Overlapping notification drains can enqueue a row more than maxAttempts times: `OverlapEnqueuesMore`. Again it is
  the older attempt count: `EnqueuesBoundedCurrent`, `AccountedIff`.
- The vote order matters when both choices reach the quorum, and exactly then: `OrderIndependentIff`.
- `src/middleware/audit.ts:66-69` says nested compound values are redacted; the code recurses into them. A value is
  kept as it is if and only if every `notes` or `bio` in it already reads as redacted: `KeptIff`, and `NestedTextKept`
  is a body that is recorded in full. Key sets are kept unless a body has an own `__proto__` key: `KeysPreservedIff`.
- `src/utils/logger.ts:216-233` writes an own property named `__proto__` as the prototype of the copy, so it leaves no
  field; every other key is written, in order: `KeysWrittenIff`.
- A legacy cursor may skip rows that share its date, and exactly then differs from the composite one: `LegacyAgreesIff`.
- `src/services/ipfsService.ts:37-48` describes clean-up as removing only what no proof refers to. All committed rows
  have their content throughout a run if and only if no delete takes effect on a CID that a committed row carries, and
  no row is committed whose CID is not in the store: `ContentLostIff` for one step, `ContentKeptIff` for runs. A
  clean-up that deletes only what no committed row carries and no request in flight has found or uploaded would keep
  them: `ContentKeptWhenGuarded`. Three runs end in a proof that was answered 201 and has no photo: two requests
  upload the same bytes at once, and the loser cleans up last (`ConcurrentUploadLoses`) or first (`LateCommitLoses`),
  or one reuses what the other then takes back (`ReusedPhotoLoses`).

## Model

| member | source | states |
|---|---|---|
| `DecisionRuns.ApprovedIff` | src/services/validatorService.ts:230-297 | whoever decides an undecided proof in a reachable system: it is approved, with payout row, notification and one completion more, if and only if approval was asked for and the task is ACTIVE and below its maximum; otherwise it is rejected and no task or payout row changes |
| `DecisionRuns.CountRisesOnlyWithRoom` | src/models/task.ts:139-157 | in every reachable system, tasks left full by an edit included: a step changes a completed count if and only if it commits a slot of a task that is ACTIVE and below its maximum; it adds one, and completes the task exactly at the maximum |
| `DecisionRuns.WorkerDecidesAsJudged` | src/workers/verificationWorker.ts:86-165 | the verdict of autoVerify is what the worker's transaction asks for, whatever happens in between; inconclusive goes to assignment, an exception ends the job |
| `DecisionRuns.ReviewDecidesAsAsked` | src/controllers/proofController.ts:369-432 | an admin's review decides as asked if the proof is undecided at read and write, and otherwise changes no proof |
| `DecisionRuns.VoteRecordedAsCast` | src/services/validatorService.ts:130-143 | a vote that passes its check is recorded with the validator's own choice and changes nothing else, whatever happens in between |
| `DecisionRuns.QuorumDecides` | src/services/validatorService.ts:158-276 | a snapshot that holds a quorum decides the proof, if still undecided at read and write, as a choice says that had the quorum, and credits by the votes of that snapshot |
| `DecisionRuns.WorkerAlone` | src/workers/verificationWorker.ts:48-205 | the job from first step to last, alone: taken up if PENDING, or VERIFYING on a retry; then decided as judged, referred to validators, or left VERIFYING by an exception |
| `ProtocolTheorems.Capacity` | src/models/task.ts:98-157 | in every reachable system, task edits included: approved proofs <= payout rows <= completed count; the count is within the maximum, and the task COMPLETED exactly at it, if and only if the task's last edit left it so |
| `ProtocolTheorems.CapacityWithoutEdits` | src/models/task.ts:139-157 | along every run in which the task is not edited: the count stays within the maximum, and the task is COMPLETED exactly at it |
| `ProtocolTheorems.CompletionsConserved` | src/controllers/proofController.ts:387-401 | every completion counted on a task is one of its payout rows or a slot committed without a verdict |
| `ProtocolTheorems.GapWidensIff` | src/services/validatorService.ts:233-247 | a step widens the gap between count and payouts if and only if it is a finalization or review that takes a free slot and then finds the proof decided; no step narrows it |
| `ProtocolTheorems.CountMayExceedPayouts` | src/controllers/proofController.ts:369-401 | a reachable system in which two admin approvals of one proof leave a completion without a payout |
| `ProtocolTheorems.RefusedAsFullIff` | src/controllers/proofController.ts:38-72 | a submission is refused as full if and only if the user holds a claim on a task that is ACTIVE although its last edit put it out of step with its count; an eligible one finds a free slot |
| `ProtocolTheorems.RefusedOnlyAfterEdit` | src/controllers/taskController.ts:73-97 | a run at whose end a submission is refused as full contains an edit of that task |
| `ProtocolTheorems.RefusedAfterEdit` | src/models/task.ts:98-114 | a reachable system, after the maximum was lowered to the count, in which a claim holder is refused as full |
| `ProtocolTheorems.DecidedForever` | src/services/validatorService.ts:72-75 | along every run a decided proof is neither deleted nor returned to PENDING or VERIFYING |
| `ProtocolTheorems.VerdictReplacedIff` | src/workers/verificationWorker.ts:102-105 | a final verdict changes in a step if and only if the step is a worker's own verdict transaction with the other outcome, and not a second payout |
| `ProtocolTheorems.VerdictOverturned` | src/workers/verificationWorker.ts:89-105 | a reachable system in which the worker's approval in flight turns an admin's rejection into an approval |
| `ProtocolTheorems.NoSecondDecision` | src/services/validatorService.ts:219-247 | once a proof is decided no run adds another quorum or admin verdict to it |
| `ProtocolTheorems.EffectsOnce` | src/services/validatorService.ts:219-300 | of all racing finalizations and reviews of a proof at most one wrote a verification, and only as the first verdict; verdicts, notifications, payout row and status always agree |
| `ProtocolTheorems.OneEscalationMarker` | src/services/validatorService.ts:58-96 | however many workers escalate a proof for lack of validators, it has at most one marker row |
| `ProtocolTheorems.ValidatorsAreSound` | src/services/validatorService.ts:28-49 | in every reachable system reputation is within plus or minus the review count, and no one is assigned their own proof |
| `ProtocolTheorems.FinalizationCredits` | src/services/validatorService.ts:258-276 | a finalization that finds the proof undecided commits, decides it, and credits exactly its voters: one review each, reputation up or down by agreement |
| `VoteCredit.ReviewsConserved` | src/services/validatorService.ts:185-191 | in every reachable system a validator's review count is the number of effective finalizations and escalations that the validator's vote was part of |
| `VoteCredit.EscalationRepeats` | src/services/validatorService.ts:183-201 | an escalation on its way always commits, also for a proof already escalated: one more row, one more review for each voter |
| `VoteCredit.EscalationsCounted` | src/services/validatorService.ts:183-201 | in every reachable system a step adds an escalation row to a proof if and only if it is the write of an escalation of that proof, and then exactly one |
| `VoteCredit.SecondEscalationIff` | src/services/validatorService.ts:183-201 | a step gives a proof its second escalation row if and only if the proof has one and the step writes another escalation of it |
| `VoteRaces.BallotEscalatedTwice` | src/services/validatorService.ts:158-201 | a reachable system: two voters raced, their ballot was escalated twice, and each has two reviews for one vote |
| `QuorumBacked.QuorumVerdictsBacked` | src/services/validatorService.ts:167-181 | every quorum verdict row was decided by a snapshot in which at least one, and at least the required number, of distinct assigned validators had chosen that verdict; all have a cast vote, none is the submitter |
| `QuorumBacked.VoteReplacedIff` | src/services/validatorService.ts:130-143 | a cast vote changes in a step if and only if the step is another write of the same validator, past its check, with the other choice |
| `VoteRaces.VoteChangedAfterDecision` | src/services/validatorService.ts:130-143 | a reachable system in which a proof is decided and a step changes a cast vote from approval to rejection |
| `QuorumBacked.AnswerAgreesIff` | src/services/validatorService.ts:219-314 | a finalization answers with the status that is stored if and only if it finds the proof undecided or already at the status that it asks for |
| `ProtocolSafety.StepKeepsInv` | src/services/validatorService.ts:123-300 | every step of every call and every environment step keeps the row, count and call invariants |
| `ProtocolSafety.DecisionKeepsCounts` | src/workers/verificationWorker.ts:89-130 | slot claim and verdict rows in one transaction move the count and the payout rows as one, also when the unique key aborts it |
| `ProtocolSafety.VerdictKeepsProof` | src/workers/verificationWorker.ts:102-127 | writing a verdict keeps status, verdict rows, notifications and payout row of a proof in agreement |
| `ProtocolSafety.AdvanceTouches` | src/services/validatorService.ts:58-96 | a step touches only its own call's proof, never changes owner or task, never drops a verification row, never undoes a decision |
| `ProtocolSafety.ReachableInv` | src/services/taskService.ts:9-30 | the invariants hold in every reachable system, including after expiry sweeps, task edits, new tasks and users, role changes, submissions and rollbacks |
| `QuorumKept.NoQuorumLost` | src/services/validatorService.ts:123-207 | once no castVote call for a proof is in flight and none died after its vote: votes that hold a quorum have decided the proof, and a fully cast ballot has decided it or left an escalation row |
| `QuorumKept.ResolverPersists` | src/services/validatorService.ts:158-181 | while a quorum stands and the proof is undecided, a resolving call goes on to resolve it |
| `QuorumKept.EscalatorPersists` | src/services/validatorService.ts:183-204 | while a full ballot without quorum stands undecided, the call goes on or has written the escalation row |
| `QuorumKept.AssignmentOpensBallot` | src/services/validatorService.ts:47-49 | adding vote rows creates no quorum and leaves the ballot open |
| `Tally.FindWinner` | src/services/validatorService.ts:170-177 | the tally record and the search through its entries return the first-seen choice that reaches the requirement |
| `Tally.Winner` | src/services/validatorService.ts:175-177 | a winner has reached the requirement, no other choice has when there is none, and of two that have, the first seen wins |
| `Tally.SnapshotCounts` | src/services/validatorService.ts:167-173 | the tally of a snapshot is the number of validators who made that choice, in whatever order rows come back |
| `Tally.WinnerIffQuorum` | src/services/validatorService.ts:175-177 | a snapshot has a winner if and only if some choice reaches the quorum |
| `Tally.AllVotedIffAllCast` | src/services/validatorService.ts:183 | the length test says that every assigned vote has been cast |
| `Tally.MajorityExcludesBoth` | src/services/validatorService.ts:175-177 | above half of the assigned votes at most one verdict can reach the quorum |
| `Tally.OrderIndependentIff` | src/services/validatorService.ts:170-177 | the verdict is independent of the row order if and only if not both choices reach the quorum |
| `Tally.EarlyWinnerKept` | src/services/validatorService.ts:167-181 | with a majority requirement an early winner is the winner under every completion of the outstanding votes |
| `Tally.ResolveOutcome` | src/services/validatorService.ts:163-206 | on an undecided proof: finalize exactly on a quorum, escalate exactly on a full ballot without one |
| `Tally.FullBallotResolves` | src/services/validatorService.ts:179-204 | with a majority requirement a full ballot finalizes or escalates, never both, the same for every row order |
| `Store.CreditEffect` | src/services/validatorService.ts:258-263 | a crediting loop succeeds if and only if all voters exist, and then changes exactly them |
| `Store.RewardEffect` | src/services/validatorService.ts:258-276 | the three loops add one review to each voter, plus or minus one reputation by agreement, and leave all others alone |
| `Store.SnapshotBallots` | prisma/schema.prisma:164-178 | a snapshot holds one ballot per voter |
| `Store.FinalizeDecides` | src/services/validatorService.ts:219-300 | a finalization that finds the proof undecided, unpaid and its voters present commits, decides it and keeps its votes |
| `Store.NoQuorumRecords` | src/services/validatorService.ts:185-201 | an escalation with its voters present commits one row and leaves status and votes alone |
| `Decisions.SlotClaimedIff` | src/models/task.ts:139-157 | a slot is claimed if and only if the task is ACTIVE and below its maximum, if any; then the count grows by one and the task is COMPLETED exactly at the maximum |
| `Decisions.WorkerVerdictWritten` | src/workers/verificationWorker.ts:88-165 | the worker's transaction aborts exactly on a second payout row, and otherwise decides as asked but for capacity, whatever the status |
| `Decisions.ReviewWritten` | src/controllers/proofController.ts:382-432 | the admin's transaction decides an undecided proof as asked but for capacity; a late one keeps a claimed slot and nothing else |
| `Decisions.FinalizationWritten` | src/services/validatorService.ts:219-300 | the finalization decides an undecided proof as asked but for capacity; a late one keeps a claimed slot and nothing else |
| `Decisions.QuorumFinalized` | src/services/validatorService.ts:211-300 | by a snapshot of the proof's own rows: the winner's verdict, and for each validator with a cast vote one review more and one reputation more or less by agreement |
| `Decisions.RefusedBecause` | src/controllers/proofController.ts:38-72 | which of 404, 400, 403 a submission is refused with, and that it is eligible exactly on an ACTIVE task with room for a holder of an unexpired claim |
| `Decisions.RollbackUndoesSubmit` | src/controllers/proofController.ts:254-270 | a submission adds one pending proof or nothing, and a rollback straight after restores the rows |
| `Database.Database.ClaimCompletionSlot` | src/models/task.ts:139-157 | the guarded update: claimed if and only if the task is ACTIVE and below its maximum, then one completion more, COMPLETED exactly at the maximum; otherwise no task changes |
| `Database.Database.InsertVerdictRows` | src/workers/verificationWorker.ts:106-127 | verification, notification and, on approval, payout row; fails exactly on a second payout row |
| `Database.Database.WorkerVerdict` | src/workers/verificationWorker.ts:88-165 | statement by statement, with rollback: approved with slot, payout and notification exactly when asked for and the task has room, rejected otherwise; aborts exactly on a second payout |
| `Database.Database.VerifyProof` | src/workers/verificationWorker.ts:48-205 | the whole job run alone, for every status, retry and verdict of autoVerify: what becomes of the proof, the task and the assignments |
| `Database.Database.Refer` | src/services/validatorService.ts:24-56 | an inconclusive proof without vote rows gets one for each validator picked, and goes back for manual review if there is none to pick |
| `Database.Database.PickValidators` | src/services/validatorService.ts:38-43 | the least-loaded validators other than the submitter, in order, as many as are to be assigned |
| `Database.Database.Review` | src/controllers/proofController.ts:382-432 | statement by statement, with rollback: decides an undecided proof as asked but for capacity; a late one keeps a claimed slot, changes nothing else and reports no update |
| `Database.Database.CreditEach` | src/services/validatorService.ts:258-263 | the loop of increments computes the credited users, or fails on a missing one |
| `Database.Database.Filter` | src/services/validatorService.ts:216-217 | the ballots that made one choice |
| `Database.Database.CreditVoters` | src/services/validatorService.ts:216-276 | the three loops compute the rewarded users |
| `Database.Database.Finalize` | src/services/validatorService.ts:229-300 | statement by statement, with rollback, exactly the finalization transaction |
| `Database.Database.EscalateNoQuorum` | src/services/validatorService.ts:185-201 | statement by statement, with rollback: one row more on the proof, and status, votes, tasks and claims as before |
| `Database.Database.EscalateToManualReview` | src/services/validatorService.ts:58-96 | back to PENDING with at most one marker row; the answer is whether the marker is there |
| `Database.Database.InsertRows` | src/services/validatorService.ts:47-49 | succeeds exactly if no chosen validator has a row, and then adds uncast rows |
| `Database.Database.FetchVoteRows` | src/services/validatorService.ts:158-161 | every vote row once, in any order |
| `Database.Database.AssignValidators` | src/services/validatorService.ts:47-49 | row-by-row insertion is all or nothing under the unique key |
| `Database.Database.ResolveQuorum` | src/services/validatorService.ts:154-207 | run alone: decided exactly on a quorum, as a choice says that has it, but for capacity, with credits by each validator's vote; escalated exactly on a full ballot without one, with one review for each voter; else nothing changes |
| `Database.Database.CastVote` | src/services/validatorService.ts:123-146 | run alone: refusals change nothing; an accepted vote is recorded, and the recorded votes alone say whether and which way the proof is decided, what it credits, or that it is escalated; the answer carries the stored status |
| `Database.Database.ExpireOverdueTasks` | src/services/taskService.ts:9-30 | exactly the overdue ACTIVE tasks and active claims expire, none is left overdue, nothing else changes, and both counts are returned |
| `PayoutOutbox.SubmissionsBounded` | src/workers/rewardWorker.ts:70-129 | in every interleaving: payments submitted for a row <= successful claims <= 1 + stale reclaims |
| `PayoutOutbox.SubmissionsBoundedAlone` | src/services/rewardPayoutSweeper.ts:84-121 | when drains do not overlap: reclaims <= attempts, and at most 1 + maxAttempts payments |
| `PayoutOutbox.SubmissionsBoundedUnless` | src/services/rewardPayoutSweeper.ts:56-119 | in every run, drains overlapping or not, in which no write leaves fewer attempts than reclaims: at most 1 + maxAttempts payments |
| `PayoutOutbox.CoveredIff` | src/services/rewardPayoutSweeper.ts:56-119 | along a run reclaims stay within attempts if and only if no drain's write undercounts them |
| `PayoutOutbox.LosesAttemptIff` | src/services/rewardPayoutSweeper.ts:57-112 | a drain's write does not raise the attempt count if and only if the row's count has moved past the one the drain had read |
| `PayoutOutbox.SubmissionsBoundedCurrent` | src/services/rewardPayoutSweeper.ts:57-112 | in every run in which no drain's write finds a count that has moved past the one it read: at most 1 + maxAttempts payments |
| `PayoutRuns.BoundAttained` | src/services/rewardPayoutSweeper.ts:84-121 | for every maxAttempts a run without overlap, each payment from its own enqueue of a free job id, submits exactly 1 + maxAttempts payments for one row |
| `PayoutRuns.OverlapExceedsBound` | src/services/rewardPayoutSweeper.ts:93-120 | two drains acting on the same stale attempt count submit one payment more than that bound |
| `PayoutPaid.PaidKeptIff` | src/workers/rewardWorker.ts:107-129 | over whole runs a PAID row stays PAID if and only if no write by id lands on it while it is not in the status its writer acted on |
| `PayoutPaid.PaidIsFinalWhenGuarded` | src/services/rewardPayoutSweeper.ts:59-113 | if drains write only to rows still in the status they were selected by, and reclaim no row that a live worker holds, then a row has at most one live worker and PAID is final, in every run |
| `PayoutRuns.PaidIsPaidAgain` | src/services/rewardPayoutSweeper.ts:85-113 | with a single drain: a run in which a row is recorded as PAID, made PENDING again and paid a second time |
| `PayoutTable.PayoutTable.EnqueuePending` | src/services/rewardPayoutSweeper.ts:45-82 | the pending loop: a failed enqueue costs an attempt, and pushes the row back or fails it on its last; which jobs are queued, and both counters |
| `PayoutTable.PayoutTable.ReclaimStale` | src/services/rewardPayoutSweeper.ts:93-121 | the stale loop: a row with attempts left becomes PENDING with one more and due at once, every other one FAILED with its attempts kept; no other row changes; the counters are how many ended which way |
| `PayoutTable.PayoutTable.DrainRewardPayouts` | src/services/rewardPayoutSweeper.ts:32-124 | a whole drain: the oldest due rows up to the batch size, then overdue rows disjoint from them; the columns of all rows, the jobs, and counters that tell how many rows ended which way |
| `PayoutTable.PayoutTable.ProcessPayout` | src/workers/rewardWorker.ts:63-138 | the payment job: which outcome leaves which row, that a payment is submitted only after a claim on an approved proof, and that the proof is marked as rewarded exactly on success |
| `PayoutAlone.DrainAlone` | src/services/rewardPayoutSweeper.ts:32-124 | a drain of the interleaved outbox that runs alone ends on exactly the rows of the table's drain |
| `PayoutAlone.JobAlone` | src/workers/rewardWorker.ts:63-138 | a job of the interleaved outbox that runs alone leaves the row as the table's job does, and submits exactly for an approved proof |
| `PayoutAlone.PaidOnlyAfterSuccess` | src/workers/rewardWorker.ts:96-129 | in every run a row is PAID only after a payment for it was submitted and succeeded |
| `PayoutAlone.FailureRecorded` | src/workers/rewardWorker.ts:104-116 | a payment that failed is written as FAILED with an attempt more, whatever happened in between |
| `NotificationOutbox.ExactlyOneOwner` | src/services/notificationOutboxService.ts:53-63 | in every interleaving a row is PROCESSING if and only if a drain, live or dead, owns it, and never two do |
| `NotificationOutbox.FinalForever` | src/services/notificationOutboxService.ts:71-85 | SENT and DEAD_LETTER rows never change again |
| `NotificationOutbox.ReturnsBalanced` | src/services/notificationOutboxService.ts:63-115 | every drain that returns has claimed = sent + retried + deadLettered |
| `NotificationBounds.EnqueuesBoundedCurrent` | src/services/notificationOutboxService.ts:76-103 | in every run, drains overlapping or not, in which no failure write finds a count that has moved past the one its drain read: each row is enqueued at most maxAttempts times (once if that is below 1) |
| `NotificationBounds.AccountedIff` | src/services/notificationOutboxService.ts:76-103 | along a run every PENDING row has as many attempts as enqueues if and only if no failure write loses an attempt |
| `NotificationBounds.LosesAttemptIff` | src/services/notificationOutboxService.ts:78-102 | a failure write does not raise the attempt count if and only if the row's count has moved past the one that was read |
| `NotificationBounds.EnqueuesBoundedAlone` | src/services/notificationOutboxService.ts:65-112 | when live drains do not overlap no attempt is lost and each row is enqueued at most maxAttempts times |
| `NotificationRuns.OverlapEnqueuesMore` | src/services/notificationOutboxService.ts:76-103 | two overlapping drains make maxAttempts + 1 enqueues possible, for every maxAttempts of 2 or more |
| `NotificationTable.NotificationTable.Dispatch` | src/services/notificationOutboxService.ts:54-112 | claim, enqueue and record one row |
| `NotificationTable.NotificationTable.DispatchAll` | src/services/notificationOutboxService.ts:53-113 | the loop: what becomes of each fetched row, and the counters |
| `NotificationTable.NotificationTable.DrainNotificationOutbox` | src/services/notificationOutboxService.ts:39-116 | a whole drain handles exactly the oldest due rows, once each: SENT on success, else pushed back or dead-lettered by attempts, each with one attempt more; the result counts how many ended which way |
| `NotificationAlone.DrainAlone` | src/services/notificationOutboxService.ts:39-116 | a drain of the interleaved outbox that runs alone ends on exactly those rows, and returns a result that claims each fetched row |
| `Batch.TakeOldest` | src/services/notificationOutboxService.ts:47-51 | the oldest eligible rows in order, as many as the limit allows |
| `Listing.ListTasks` | src/models/task.ts:19-78 | one page: the front of the matching rows in (createdAt, id) descending order, with a cursor to its last row exactly if more are left |
| `Listing.FindMany` | src/models/task.ts:66-70 | ordering and taking |
| `Listing.FiltersMean` | src/models/task.ts:23-41 | an empty filter is none, reward bounds and box edges are included, and a box across the antimeridian is the two boxes on either side |
| `Listing.PagePasses` | src/models/task.ts:23-70 | every row of a page is of the table, passes each filter given, comes after the cursor and after the row before it |
| `Listing.Newest` | src/models/task.ts:68 | the row that is listed before all others |
| `Listing.NoRepeats` | src/models/task.ts:43-77 | following cursors over a table that changes between pages lists strictly descending rows, so none repeats |
| `Listing.NothingSkipped` | src/models/task.ts:43-77 | a row that matches on every page's table is listed |
| `Listing.ExactlyOnce` | src/models/task.ts:43-77 | a row present and matching throughout a walk to null is listed exactly once |
| `Listing.StaticWalk` | src/models/task.ts:43-77 | on an unchanging table a walk lists exactly the matching rows in order |
| `Listing.WalkBounded` | src/models/task.ts:72-77 | no walk on an unchanging table, finished or not, has more pages than there are matching rows, and one |
| `Listing.WalkTerminates` | src/models/task.ts:72-77 | from any cursor, for any limit of 1 or more, a walk reaches null |
| `Listing.OrderedUnique` | src/models/task.ts:66-70 | the order leaves no freedom: ids break all ties |
| `Listing.LegacyAgreesIff` | src/models/task.ts:55-63 | a date-only cursor continues like the composite one if and only if no matching row with the same date and a smaller id is left |
| `Cursor.CursorRoundTrip` | src/utils/cursor.ts:30-88 | decoding an encoded cursor returns its date and id, whatever characters the id has |
| `Cursor.CursorInjective` | src/utils/cursor.ts:30-34 | different rows never share a token |
| `Cursor.LegacyNeverComposite` | src/utils/cursor.ts:54-88 | nothing that starts with a digit or sign is read as a token, so bare ISO dates keep working |
| `Utf8Base64.LateFirstByte` | src/utils/cursor.ts:58 | such a text decodes to nothing or to bytes from 0xD0 on |
| `Utf8Base64.Base64RoundTrip` | src/utils/cursor.ts:31-33 | base64url (section 5 of RFC 4648) is inverted on all bytes |
| `Utf8Base64.Utf8RoundTrip` | src/utils/cursor.ts:31-58 | UTF-8 is inverted on all strings of Unicode scalar values |
| `JsonText.ReadQuoted` | src/utils/cursor.ts:31-59 | a string written with the escapes of section 7 of RFC 8259 is read back up to its closing quote |
| `JsonText.ParsePair` | src/utils/cursor.ts:31-59 | an object of two string members parses back to them |
| `RateLimiter.RedisRateLimiter.CheckKey` | src/services/rateLimitService.ts:24-50 | the script's commands in order, on any stored key, and the result arithmetic |
| `RateLimiter.KeysExpire` | src/services/rateLimitService.ts:27-58 | over any sequence of checks and resets, also on a store with keys that never expire: a key that was checked has an expiry |
| `RateLimiter.AtMostTwiceLimit` | src/services/rateLimitService.ts:27-49 | any half-open interval of one window length holds at most 2 * limit - 1 allowed requests |
| `RateLimiter.BurstAttains` | src/services/rateLimitService.ts:27-49 | and that many do occur, for every limit and every window of at least 3 ms, with no request at an instant of expiry |
| `RateLimiter.DeniedIffUsedUp` | src/services/rateLimitService.ts:44-47 | a request is denied if and only if the limit was used up in its window; otherwise `remaining` is what is left |
| `RateLimiter.RetryAfterCovers` | src/services/rateLimitService.ts:48 | the wait is the remaining time rounded up to seconds |
| `AuditQueue.NothingLost` | src/services/auditService.ts:41-128 | in every interleaving: at most one drain, queued entries imply one, logged = ended ++ in hand ++ queued in order, and entries end written or failed after exactly 3 attempts |
| `AuditQueue.AuditService.LogAudit` | src/services/auditService.ts:44-49 | the entry goes to the back; a drain is scheduled exactly if none is |
| `AuditQueue.AuditService.WriteWithRetry` | src/services/auditService.ts:67-114 | one entry's outcome by how many writes fail |
| `AuditQueue.AuditService.WriteBatch` | src/services/auditService.ts:57-61 | the inner loop handles its batch in order, while arriving entries join the queue in order |
| `AuditQueue.AuditService.DrainQueue` | src/services/auditService.ts:51-65 | a drain with entries arriving while it writes ends on an empty queue, with all of them handled first in, first out |
| `AuditRedaction.SanitiseValue` | src/middleware/audit.ts:73-100 | the recursive copy computes the sanitised value |
| `AuditRedaction.RedactDetails` | src/middleware/audit.ts:115-135 | the loop computes the redacted body |
| `AuditRedaction.NonInterference` | src/middleware/audit.ts:102-135 | bodies that differ only beneath always-redacted keys at any depth, or beneath fields not whitelisted, leave the same record |
| `AuditRedaction.FreeTextHidden` | src/middleware/audit.ts:60 | every field named `notes` or `bio`, at any depth of any record, reads as redacted |
| `AuditRedaction.ShownOnly` | src/middleware/audit.ts:21-53 | of each action only the listed fields can read otherwise than redacted, and a scalar in one of them is recorded as sent |
| `AuditRedaction.RecordsAgreeIff` | src/middleware/audit.ts:115-135 | without `__proto__` keys, records agree if and only if the bodies differ in nothing else |
| `AuditRedaction.KeysKept` | src/middleware/audit.ts:89-134 | the record has the body's keys in order, but for `__proto__` |
| `AuditRedaction.KeysPreservedIff` | src/middleware/audit.ts:120-134 | the keys are preserved if and only if the body has no own `__proto__` key |
| `AuditRedaction.RedactionIdempotent` | src/middleware/audit.ts:115-135 | redacting twice is redacting once |
| `AuditRedaction.KeptIff` | src/middleware/audit.ts:73-100 | a value without `__proto__` keys is recorded as it is if and only if every always-redacted field in it, at any depth, already reads as redacted |
| `AuditRedaction.NestedTextKept` | src/middleware/audit.ts:66-100 | any text two objects deep under a whitelisted field is recorded as it was sent |
| `QueueMaintenance.JobQueue.TrimCompletedJobs` | src/services/queueMaintenanceService.ts:14-36 | exactly max(n - retained, 0) oldest jobs go, for any batch size and whatever completes between batches |
| `QueueMaintenance.JobQueue.RemoveBatch` | src/services/queueMaintenanceService.ts:25-28 | one batch of the oldest jobs goes, later completions stay |
| `QueueMaintenance.JobQueue.Clean` | src/services/queueMaintenanceService.ts:47 | one call removes the first expired jobs, up to the limit |
| `QueueMaintenance.CleaningStep` | src/services/queueMaintenanceService.ts:46-50 | a round changes nothing about which jobs are to stay, and a short round has left exactly those |
| `QueueMaintenance.OldestGoFirst` | src/services/queueMaintenanceService.ts:47 | a round removes all expired jobs up to some point of the list and none beyond it |
| `QueueMaintenance.UnexpiredExactly` | src/services/queueMaintenanceService.ts:43 | what stays is exactly what is within the age limit |
| `QueueMaintenance.JobQueue.RemoveExpiredFailedJobs` | src/services/queueMaintenanceService.ts:38-53 | the loop ends and leaves exactly the failed jobs within the age limit |
| `QueueMaintenance.JobQueue.CleanupQueueJobs` | src/services/queueMaintenanceService.ts:55-80 | both parts and both counts, also when jobs complete meanwhile; a bad batch size changes nothing |
| `RewardAmount.FormatInverted` | src/utils/reward.ts:3-13 | a decimal parser inverts the displayed amount, for every integer of any size and sign |
| `RewardAmount.StellarInverted` | src/services/stellarService.ts:62-68 | the same parser inverts the seven-decimal amount of the payment |
| `RewardAmount.PrintersInjective` | src/services/stellarService.ts:62-68 | different amounts never print alike, and the amount paid denotes the amount displayed |
| `RewardAmount.ShortestForm` | src/utils/reward.ts:7-12 | no trailing zero, no bare point, one to seven decimals exactly when there is a fraction |
| `LogSerializer.Serializer.ApplyRedactionHooks` | src/utils/logger.ts:56-74 | each hook sees what the one before left; one that throws is skipped |
| `LogSerializer.Serializer.SerializeValue` | src/utils/logger.ts:160-239 | terminates on every graph, restores the ancestors on every way out, and computes the serialisation |
| `LogSerializer.CircularIff` | src/utils/logger.ts:175-178 | a position is '[Circular]' if and only if it is within the depth limit and its object is on its own path, and '[MaxDepth]' if and only if it is an object beyond it |
| `LogSerializer.KeysWrittenIff` | src/utils/logger.ts:216-233 | a plain object is written with all its own keys in order if and only if none is `__proto__` |
| `LogSerializer.ListWritten` | src/utils/logger.ts:187-214 | an array or set is written with every item in order, under its index, past the hooks |
| `LogSerializer.MapWritten` | src/utils/logger.ts:192-209 | a map is written with key and value of every entry in order |
| `LogSerializer.ErrorWritten` | src/utils/logger.ts:76-158 | an error is written with message, name and stack first, with code and cause exactly if they are there, and with its own properties |
| `LogSerializer.SensitiveWhen` | src/utils/logger.ts:34-39 | a name with one of the twelve words in it, in any case, is sensitive |
| `LogSerializer.SensitiveNeverShown` | src/utils/logger.ts:34-39 | non-interference of the whole output with the default hook: graphs that differ only beneath sensitively named properties, at any depth, are written alike |
| `Submission.SubmitProof.UploadPhotos` | src/controllers/proofController.ts:144-167 | all uploads settle before a failure is acted on, and every new CID is recorded |
| `Submission.SubmitProof.CleanupUploadedCids` | src/controllers/proofController.ts:87-94 | removes the recorded CIDs, the first time only |
| `Submission.SubmitProof.Submit` | src/controllers/proofController.ts:96-282 | every outcome's status from what the request meets: 201 exactly on commit and enqueue, 500 exactly on a failure that is no refusal, and nothing else below 400; on 201 the rows of all photos are there and nothing is removed, otherwise every new upload is, once; a proof stays behind a failure exactly if its compensating delete failed |
| `Submission.NewCidsFrom` | src/controllers/proofController.ts:145-149 | the recorded CIDs are exactly those of successful uploads of photos not seen before |
| `Submission.ReusedNeverRemoved` | src/controllers/proofController.ts:147-149 | the CID of a photo that a request reuses is never among those it uploads, hence never among those it removes |
| `SubmissionRaces.AnsweredIsCommitted` | src/controllers/proofController.ts:191-274 | in every interleaving a request that was answered 201 has its proof committed, for good |
| `SubmissionRaces.CommitsExactly` | src/controllers/proofController.ts:208-233 | a commit takes effect if and only if no hash of a new photo is owned or occurs twice; the proof then has one row for each photo, with its CID, and its hash if new |
| `SubmissionRaces.ContentLostIff` | src/controllers/proofController.ts:162-282 | in any system whose committed rows all have their content, a step leaves one without it if and only if it is a delete that takes effect on a CID some committed row carries, or commits a row whose CID is not in the store |
| `SubmissionRaces.ContentKeptIff` | src/controllers/proofController.ts:144-282 | over whole runs: at every moment all committed rows have their content if and only if no step is one of those two |
| `SubmissionRaces.ContentKeptWhenGuarded` | src/services/ipfsService.ts:37-48 | if clean-ups delete only CIDs that no committed row carries and no request in flight has found or uploaded, then in every run every committed row has its content |
| `SubmissionRaces.MissingIsBlamed` | src/controllers/proofController.ts:87-94 | in every reachable system a committed row without its content goes back to a failed request that had newly uploaded the same bytes |
| `SubmissionRaces.RowsContentAddressed` | src/controllers/proofController.ts:132-160 | in every interleaving a row that owns a hash carries the CID of those bytes, through commits and rollbacks |
| `SubmissionRaces.FoundNeverUploaded` | src/controllers/proofController.ts:133-149 | in every interleaving what a request's lookup found is the CID of the bytes and not among its own uploads |
| `SubmissionRaces.ConcurrentUploadLoses` | src/controllers/proofController.ts:191-239 | a reachable system: two requests uploaded the same new bytes, the one that lost the unique key deleted what the other was answered 201 for |
| `SubmissionRaces.LateCommitLoses` | src/controllers/proofController.ts:144-239 | a reachable system: the other request's clean-up took effect first, and a proof was then committed and answered 201 with its photo already gone |
| `SubmissionRaces.ReusedPhotoLoses` | src/controllers/proofController.ts:254-275 | a reachable system: a photo reused by a proof answered 201 was deleted when its first submitter's enqueue failed |
| `Submission.NewCidsAreStored` | src/controllers/proofController.ts:150-167 | on success every new CID is on a row with its hash |
| `Submission.DuplicatePhotosFail` | prisma/schema.prisma:131 | two photos with the same new bytes in one request make it fail |

## Left out

- Task deletes, user deletion, analytics, leaderboards and seed data. Of a task edit, the fields that the protocol reads: maximum, status and expiry.
- Routing, request schemas, authentication, the denylist circuit breaker, process shutdown, log lines and metrics.
- The scoring of the automatic verifier, GPS distance and EXIF data: the verdict is any verdict, `gpsMismatch` is not modelled.
- Ids are natural numbers; vote, verification, notification and payout rows are kept with their proof; texts of notes are reduced to the kinds the code tells apart.
- Transactions are atomic steps, a query with its included relations is one read, and a job retry is a new call that may resume.
- A database statement that fails is a call that dies there; a write that took effect although its acknowledgement was lost is not modelled. External calls may fail after having taken effect.
- Rows handed to an interleaved drain are any distinct due or stale rows; batch limit and order are in `PayoutTable` and `NotificationTable`.
- Liveness under crashes: notification rows left PROCESSING and suppressed re-enqueues; the dispatch workers behind the queues.
- QuorumKept.NoQuorumLost: assumes that no castVote call for the proof died between its vote and its resolution, because nothing resumes such a call.
- Listing.ListTasks: takes a decoded cursor and treats an empty id as no id; latitude and longitude are reals, ids compare in the column's order, and the antimeridian filter has its stated meaning whether or not the query library accepts its shape.
- Cursor.CursorRoundTrip: dates are ISO texts and `new Date` is a parameter; strings are sequences of Unicode scalar values, so lone surrogates read as U+FFFD, and invalid UTF-8 may decode to a different number of U+FFFD.
- PayoutPaid.PaidIsFinalWhenGuarded: that a worker is live is known to the model, not to the sweeper; the code has no lease.
- RateLimiter.AtMostTwiceLimit: runs without `reset`, for windows of at least 1 ms (for shorter ones the store deletes the key at once).
- AuditRedaction.KeysKept: own keys only, not the prototype that `__proto__` sets; actions named like members of `Object.prototype` are not modelled.
- QueueMaintenance.JobQueue.TrimCompletedJobs: no other process removes jobs meanwhile; one clock reading serves the whole cleaning loop.
- LogSerializer.Serializer.SerializeValue: how leaves are rendered as text, an error's own property named like a standard one replacing it in the output object, and the prototype that an own `__proto__` property sets.
- Submission.SubmitProof.Submit: temporary files, a response that fails to be sent after a commit, and the mock mode of the store, in which every upload has a CID of its own and deletes do nothing.
- `listPendingReviews`, `getAuditLogs` and other plain queries.
