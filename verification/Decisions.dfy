/** What a verdict, a credit and a vote leave of the rows, column by column, whoever writes them. */
module Decisions {
  import opened Common
  import opened Tally
  import opened Store

  /** The task takes one more completion. */
  predicate HasRoom(task: Task) {
    task.status == ACTIVE && (task.maxCompletions == None || task.completedCount < task.maxCompletions.value)
  }

  /** One completion more; COMPLETED if that was the last one, ACTIVE otherwise. */
  predicate OneMore(before: Task, after: Task) {
    && after.completedCount == before.completedCount + 1
    && after.maxCompletions == before.maxCompletions
    && after.expiresAt == before.expiresAt
    && after.status == (if after.maxCompletions == Some(after.completedCount) then COMPLETED else ACTIVE)
  }

  /** The task's count goes up by one and the proof is approved, notified and paid for. */
  ghost predicate Approves(s: Store, s': Store, p: ProofId, judge: Verifier) {
    && p in s.proofs && s.proofs[p].task in s.tasks
    && var a, t := s.proofs[p], s.proofs[p].task;
    && t in s'.tasks && OneMore(s.tasks[t], s'.tasks[t]) && s'.tasks == s.tasks[t := s'.tasks[t]]
    && s'.proofs == s.proofs[p := Proof(a.submitter, t, APPROVED, a.votes,
                                        a.verifications + [Verification(judge, Approved, Plain)],
                                        a.notified + [true], true)]
  }

  /** No task changes, no payout row is written, and the proof is rejected; the note says if it was for capacity. */
  ghost predicate Rejects(s: Store, s': Store, p: ProofId, judge: Verifier, asked: Choice) {
    && p in s.proofs && s'.tasks == s.tasks
    && var a := s.proofs[p];
    && var row := if asked == Approve then Verification(judge, Approved, AutoRejectedAtCapacity)
                  else Verification(judge, Rejected, Plain);
    && s'.proofs == s.proofs[p := Proof(a.submitter, a.task, REJECTED, a.votes, a.verifications + [row],
                                        a.notified + [false], a.hasPayout)]
  }

  /** The verdict asked for, but for the capacity of the task. */
  ghost predicate DecidesAs(s: Store, s': Store, p: ProofId, judge: Verifier, asked: Choice) {
    && p in s.proofs && s.proofs[p].task in s.tasks && s'.claims == s.claims
    && if asked == Approve && HasRoom(s.tasks[s.proofs[p].task]) then Approves(s, s', p, judge)
       else Rejects(s, s', p, judge, asked)
  }

  /** The payout row is there already, and this verdict would write another. */
  predicate PaysTwice(s: Store, p: ProofId, asked: Choice) {
    && p in s.proofs && s.proofs[p].hasPayout
    && asked == Approve && s.proofs[p].task in s.tasks && HasRoom(s.tasks[s.proofs[p].task])
  }

  /** A guarded write that comes too late keeps the slot it claimed, if one was free, and nothing else. */
  ghost predicate KeepsSlot(s: Store, s': Store, t: TaskId, asked: Choice) {
    && s'.proofs == s.proofs && s'.users == s.users && s'.claims == s.claims
    && if asked == Approve && t in s.tasks && HasRoom(s.tasks[t])
       then t in s'.tasks && OneMore(s.tasks[t], s'.tasks[t]) && s'.tasks == s.tasks[t := s'.tasks[t]]
       else s'.tasks == s.tasks
  }

  /** The claim on a completion slot changes the task exactly if it has room, and then counts one completion. */
  lemma SlotClaimedIff(tasks: map<TaskId, Task>, t: TaskId)
    ensures SlotFree(tasks, t) <==> t in tasks && HasRoom(tasks[t])
    ensures var after := ClaimSlot(tasks, t);
            if t in tasks && HasRoom(tasks[t])
            then t in after && OneMore(tasks[t], after[t]) && after == tasks[t := after[t]]
            else after == tasks
  {}

  /** The rows of a verdict, with users as they are after crediting. */
  lemma VerdictWritten(s: Store, p: ProofId, judge: Verifier, asked: Choice, users: map<UserId, User>)
    requires p in s.proofs && s.proofs[p].task in s.tasks
    ensures var t := s.proofs[p].task;
            var o := WriteVerdict(AfterSlot(s, t, asked).(users := users), p, FinallyApproved(s, t, asked),
                                  VerdictRow(s, t, judge, asked));
            && (o.Abort? <==> PaysTwice(s, p, asked))
            && (o.Commit? ==> DecidesAs(s, o.store, p, judge, asked) && o.store.users == users)
  {
    SlotClaimedIff(s.tasks, s.proofs[p].task);
  }

  /** The worker's verdict, also on a decided proof: it asks for no status. */
  lemma WorkerVerdictWritten(s: Store, p: ProofId, asked: Choice)
    requires p in s.proofs && s.proofs[p].task in s.tasks
    ensures var o := WorkerVerdictTx(s, p, s.proofs[p].task, asked);
            && (o.Abort? <==> PaysTwice(s, p, asked))
            && (o.Commit? ==> DecidesAs(s, o.store, p, Auto, asked) && o.store.users == s.users)
  {
    VerdictWritten(s, p, Auto, asked, s.users);
    assert AfterSlot(s, s.proofs[p].task, asked).(users := s.users) == AfterSlot(s, s.proofs[p].task, asked);
  }

  /** The admin's verdict on an undecided proof, and what is left of one that comes too late. */
  lemma ReviewWritten(s: Store, p: ProofId, t: TaskId, admin: UserId, asked: Choice)
    requires p in s.proofs && Awaiting(s.proofs[p].status) ==> s.proofs[p].task == t && t in s.tasks
    ensures var o := ReviewTx(s, p, t, admin, asked);
            if p in s.proofs && Awaiting(s.proofs[p].status) then
              && (o.Abort? <==> PaysTwice(s, p, asked))
              && (o.Commit? ==> DecidesAs(s, o.store, p, Admin(admin), asked) && o.store.users == s.users)
            else o.Commit? && KeepsSlot(s, o.store, t, asked)
  {
    SlotClaimedIff(s.tasks, t);
    if p in s.proofs && Awaiting(s.proofs[p].status) {
      VerdictWritten(s, p, Admin(admin), asked, s.users);
      assert AfterSlot(s, t, asked).(users := s.users) == AfterSlot(s, t, asked);
    }
  }

  /** The finalization of an undecided proof, and what is left of one that comes too late. */
  lemma FinalizationWritten(s: Store, p: ProofId, t: TaskId, asked: Choice, submitted: seq<Ballot>)
    requires p in s.proofs && Awaiting(s.proofs[p].status) ==> s.proofs[p].task == t && t in s.tasks
    ensures var o := FinalizeTx(s, p, t, asked, submitted);
            if p in s.proofs && Awaiting(s.proofs[p].status) then
              && (o.Abort? <==> PaysTwice(s, p, asked) || Reward(s.users, submitted, asked).None?)
              && (o.Commit? ==> && DecidesAs(s, o.store, p, Quorum, asked)
                                && Reward(s.users, submitted, asked) == Some(o.store.users))
            else o.Commit? && KeepsSlot(s, o.store, t, asked)
  {
    SlotClaimedIff(s.tasks, t);
    var users := Reward(s.users, submitted, asked);
    if p in s.proofs && Awaiting(s.proofs[p].status) && users.Some? {
      VerdictWritten(s, p, Quorum, asked, users.value);
    }
  }

  // ---- credits, from the vote rows alone ----

  /** A user after a finalization: one more review for a cast vote, one reputation more or less by agreement. */
  ghost function CreditedByVote(before: User, votes: Votes, u: UserId, verdict: Choice): User {
    if u in votes && votes[u].Some?
    then User(before.validator, before.validatorReputation + (if votes[u] == Some(verdict) then 1 else -1),
              before.reviewCount + 1)
    else before
  }

  ghost predicate CreditsVoters(before: map<UserId, User>, after: map<UserId, User>, votes: Votes, verdict: Choice) {
    && after.Keys == before.Keys
    && forall u :: u in before ==> after[u] == CreditedByVote(before[u], votes, u, verdict)
  }

  /** Every validator with a cast vote has one more review. */
  ghost predicate CountsReviews(before: map<UserId, User>, after: map<UserId, User>, votes: Votes) {
    && after.Keys == before.Keys
    && forall u :: u in before ==>
         after[u] == if u in votes && votes[u].Some?
                     then User(before[u].validator, before[u].validatorReputation, before[u].reviewCount + 1)
                     else before[u]
  }

  /** The voters of a snapshot are the validators with a cast vote, and those for a choice are those who made it. */
  lemma {:induction false} SnapshotVoters(votes: Votes, order: seq<UserId>, u: UserId)
    ensures u in Voters(Submitted(votes, order)) <==> u in order && u in votes && votes[u].Some?
    ensures forall c :: u in VotersOf(Submitted(votes, order), c) <==> u in order && u in votes && votes[u] == Some(c)
  {
    if order != [] {
      var init, v := order[..|order| - 1], order[|order| - 1];
      SnapshotVoters(votes, init, u);
      assert u in order <==> u in init || u == v;
      if v in votes && votes[v].Some? {
        VotersSnoc(Submitted(votes, init), Ballot(v, votes[v].value), u);
      }
    }
  }

  lemma VotersSnoc(ballots: seq<Ballot>, b: Ballot, u: UserId)
    ensures u in Voters(ballots + [b]) <==> u in Voters(ballots) || u == b.validator
    ensures forall c :: u in VotersOf(ballots + [b], c)
                        <==> u in VotersOf(ballots, c) || (u == b.validator && c == b.choice)
  {
    var all := ballots + [b];
    forall i | 0 <= i < |ballots|
      ensures all[i] == ballots[i]
    {}
    assert all[|ballots|] == b;
  }

  lemma RewardedByVote(before: User, votes: Votes, order: seq<UserId>, u: UserId, verdict: Choice)
    requires Lists(order, votes.Keys)
    ensures Rewarded(before, Submitted(votes, order), u, verdict) == CreditedByVote(before, votes, u, verdict)
  {
    SnapshotVoters(votes, order, u);
    if u in votes && votes[u].Some? { assert u in order; }
  }

  lemma VotersArePeople(users: map<UserId, User>, votes: Votes, order: seq<UserId>)
    requires votes.Keys <= users.Keys
    ensures Voters(Submitted(votes, order)) <= users.Keys
  {
    forall u | u in Voters(Submitted(votes, order))
      ensures u in users
    {
      SnapshotVoters(votes, order, u);
    }
  }

  lemma RewardCredits(users: map<UserId, User>, votes: Votes, order: seq<UserId>, verdict: Choice)
    requires Lists(order, votes.Keys) && Voters(Submitted(votes, order)) <= users.Keys
    ensures var after := Reward(users, Submitted(votes, order), verdict);
            after.Some? && CreditsVoters(users, after.value, votes, verdict)
  {
    var submitted := Submitted(votes, order);
    SnapshotBallots(votes, order);
    RewardPointwise(users, submitted, verdict);
    forall u | u in users
      ensures Rewarded(users[u], submitted, u, verdict) == CreditedByVote(users[u], votes, u, verdict)
    {
      RewardedByVote(users[u], votes, order, u, verdict);
    }
  }

  lemma EscalationCredits(users: map<UserId, User>, votes: Votes, order: seq<UserId>)
    requires Lists(order, votes.Keys) && Voters(Submitted(votes, order)) <= users.Keys
    ensures var after := Credit(users, Submitted(votes, order), 1, 0);
            after.Some? && CountsReviews(users, after.value, votes)
  {
    var submitted := Submitted(votes, order);
    SnapshotBallots(votes, order);
    CreditEffect(users, submitted, 1, 0);
    forall u
      ensures u in Voters(submitted) <==> u in votes && votes[u].Some?
    {
      SnapshotVoters(votes, order, u);
    }
  }

  /** The row that an escalated ballot leaves, and nothing else on the proof. */
  ghost predicate Escalates(s: Store, s': Store, p: ProofId) {
    && p in s.proofs && s'.tasks == s.tasks && s'.claims == s.claims
    && var a := s.proofs[p];
    && var row := Verification(Quorum, Inconclusive, NoQuorumReached);
    && s'.proofs == s.proofs[p := Proof(a.submitter, a.task, a.status, a.votes, a.verifications + [row], a.notified,
                                        a.hasPayout)]
  }

  /** A finalization by a snapshot of the proof's own rows, with nothing else in between. */
  lemma QuorumFinalized(s: Store, p: ProofId, winner: Choice, order: seq<UserId>)
    requires p in s.proofs && s.proofs[p].task in s.tasks && Awaiting(s.proofs[p].status) && !s.proofs[p].hasPayout
    requires Lists(order, s.proofs[p].votes.Keys) && s.proofs[p].votes.Keys <= s.users.Keys
    ensures var o := FinalizeTx(s, p, s.proofs[p].task, winner, Submitted(s.proofs[p].votes, order));
            && o.Commit? && DecidesAs(s, o.store, p, Quorum, winner)
            && CreditsVoters(s.users, o.store.users, s.proofs[p].votes, winner)
  {
    VotersArePeople(s.users, s.proofs[p].votes, order);
    RewardCredits(s.users, s.proofs[p].votes, order, winner);
    FinalizationWritten(s, p, s.proofs[p].task, winner, Submitted(s.proofs[p].votes, order));
  }

  lemma BallotEscalated(s: Store, p: ProofId, order: seq<UserId>)
    requires p in s.proofs
    requires Lists(order, s.proofs[p].votes.Keys) && s.proofs[p].votes.Keys <= s.users.Keys
    ensures var o := NoQuorumTx(s, p, Submitted(s.proofs[p].votes, order));
            && o.Commit? && Escalates(s, o.store, p)
            && CountsReviews(s.users, o.store.users, s.proofs[p].votes)
  {
    VotersArePeople(s.users, s.proofs[p].votes, order);
    EscalationCredits(s.users, s.proofs[p].votes, order);
  }

  /** Back to PENDING if it was VERIFYING, then with the marker row for lack of validators, unless it had one. */
  ghost predicate ReturnsToReview(proofs: map<ProofId, Proof>, after: map<ProofId, Proof>, p: ProofId) {
    && p in proofs
    && var a, row := proofs[p], Verification(Auto, Inconclusive, NoValidatorsAvailable);
    && after == proofs[p := if a.status != VERIFYING then a
                            else Proof(a.submitter, a.task, PENDING, a.votes,
                                       if row in a.verifications then a.verifications else a.verifications + [row],
                                       a.notified, a.hasPayout)]
  }

  /** Each chosen validator, none of whom had one, has a row without a choice. */
  ghost predicate Assigned(proofs: map<ProofId, Proof>, after: map<ProofId, Proof>, p: ProofId, chosen: seq<UserId>) {
    && p in proofs && p in after
    && var a, votes := proofs[p], after[p].votes;
    && after == proofs[p := Proof(a.submitter, a.task, a.status, votes, a.verifications, a.notified, a.hasPayout)]
    && (forall v :: v in votes <==> v in a.votes || v in chosen)
    && (forall v :: v in votes ==> votes[v] == if v in a.votes then a.votes[v] else None)
  }

  /** The worker's job goes on for a PENDING proof, and on a retry for one it left VERIFYING. */
  predicate TakenUp(proofs: map<ProofId, Proof>, p: ProofId, retry: bool) {
    p in proofs && (proofs[p].status == PENDING || (proofs[p].status == VERIFYING && retry))
  }

  ghost function Taken(s: Store, p: ProofId): Store
    requires p in s.proofs
  {
    s.(proofs := s.proofs[p := s.proofs[p].(status := VERIFYING)])
  }

  /**
   * An inconclusive proof that had no vote rows has one for each chosen validator, and a row that says it was
   * inconclusive; with none to choose it goes back for manual review.
   */
  ghost predicate Referred(proofs: map<ProofId, Proof>, after: map<ProofId, Proof>, p: ProofId, chosen: seq<UserId>) {
    && p in proofs && p in after
    && if proofs[p].votes == map[] && chosen == [] then ReturnsToReview(proofs, after, p)
       else
         var noted := after[p].(verifications := proofs[p].verifications);
         && after[p].verifications == proofs[p].verifications + [Verification(Auto, Inconclusive, Plain)]
         && Assigned(proofs, after[p := noted], p, chosen)
  }

  /** The store with one vote recorded. */
  ghost function Voted(s: Store, p: ProofId, v: UserId, choice: Choice): Store
    requires p in s.proofs
  {
    s.(proofs := s.proofs[p := s.proofs[p].(votes := s.proofs[p].votes[v := Some(choice)])])
  }

  // ---- what one call of the protocol undoes, and what it asks ----

  /** Why a submission is refused, in the order of the checks. */
  lemma RefusedBecause(s: Store, t: TaskId, u: UserId, now: int)
    ensures var r := CheckEligibility(s, t, u, now);
            && (r == Refused(404) <==> t !in s.tasks)
            && (r == Refused(400) <==> t in s.tasks && s.tasks[t].status != ACTIVE)
            && (r == Refused(403) <==>
                  && t in s.tasks && s.tasks[t].status == ACTIVE
                  && !((t, u) in s.claims && s.claims[(t, u)].status == Held && now < s.claims[(t, u)].expiresAt))
            && (r == Eligible <==>
                  && t in s.tasks && s.tasks[t].status == ACTIVE
                  && (t, u) in s.claims && s.claims[(t, u)].status == Held && now < s.claims[(t, u)].expiresAt
                  && (s.tasks[t].maxCompletions == None || s.tasks[t].completedCount < s.tasks[t].maxCompletions.value))
            && (r == Eligible || r == Refused(400) || r == Refused(403) || r == Refused(404) || r == Refused(409))
  {}

  /** A submission adds one pending proof or nothing, and a rollback before anyone has judged it undoes it. */
  lemma RollbackUndoesSubmit(s: Store, p: ProofId, t: TaskId, u: UserId, now: int)
    requires p !in s.proofs
    ensures var s1 := SubmitTx(s, p, t, u, now);
            && (if CheckEligibility(s, t, u, now) == Eligible
                then s1 == s.(proofs := s.proofs[p := Proof(u, t, PENDING, map[], [], [], false)])
                else s1 == s)
            && (RollbackTx(s1, p) == if p in s1.proofs then Commit(s) else Abort)
  {
    var s1 := SubmitTx(s, p, t, u, now);
    if p in s1.proofs { assert s1.proofs - {p} == s.proofs; }
  }
}
