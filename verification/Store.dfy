/**
 * The database rows behind proof verification, and every transaction on them as a function.
 * A transaction either commits a new store or aborts (missing row or unique-key violation).
 * Vote, verification, notification and payout rows are kept with the proof they belong to.
 */
module Store {
  import opened Common
  import opened Tally

  type TaskId = nat
  type ProofId = nat

  datatype TaskStatus = ACTIVE | COMPLETED | EXPIRED
  datatype Task = Task(status: TaskStatus, completedCount: nat, maxCompletions: Option<nat>, expiresAt: Option<int>)

  datatype ClaimStatus = Held | Lapsed | Released
  datatype Claim = Claim(status: ClaimStatus, expiresAt: int)

  datatype User = User(validator: bool, validatorReputation: int, reviewCount: nat)

  datatype ProofStatus = PENDING | VERIFYING | APPROVED | REJECTED

  datatype Verifier = Quorum | Auto | Admin(id: UserId)
  datatype Judgement = Approved | Rejected | Inconclusive
  datatype Note = Plain | AutoRejectedAtCapacity | NoQuorumReached | NoValidatorsAvailable
  datatype Verification = Verification(verifier: Verifier, verdict: Judgement, note: Note)

  /** `notified` holds, oldest first, the kind of each notification row: true is `proof.approved`. */
  datatype Proof = Proof(
    submitter: UserId,
    task: TaskId,
    status: ProofStatus,
    votes: Votes,
    verifications: seq<Verification>,
    notified: seq<bool>,
    hasPayout: bool)

  datatype Store = Store(
    tasks: map<TaskId, Task>,
    proofs: map<ProofId, Proof>,
    users: map<UserId, User>,
    claims: map<(TaskId, UserId), Claim>)

  datatype Outcome = Abort | Commit(store: Store)

  predicate Awaiting(status: ProofStatus) {
    status.PENDING? || status.VERIFYING?
  }

  predicate Decided(status: ProofStatus) {
    !Awaiting(status)
  }

  function Judged(c: Choice): Judgement {
    if c.Approve? then Approved else Rejected
  }

  // ---- claimCompletionSlot ----

  predicate SlotFree(tasks: map<TaskId, Task>, t: TaskId) {
    && t in tasks
    && tasks[t].status.ACTIVE?
    && (tasks[t].maxCompletions.None? || tasks[t].completedCount < tasks[t].maxCompletions.value)
  }

  function TakeSlot(task: Task): Task {
    var n := task.completedCount + 1;
    task.(completedCount := n,
          status := if task.maxCompletions.Some? && n >= task.maxCompletions.value then COMPLETED else task.status)
  }

  /** The guarded UPDATE: zero rows change when no slot is free. */
  function ClaimSlot(tasks: map<TaskId, Task>, t: TaskId): map<TaskId, Task> {
    if SlotFree(tasks, t) then tasks[t := TakeSlot(tasks[t])] else tasks
  }

  // ---- writing a verdict ----

  function WithVerdict(p: Proof, approved: bool, v: Verification): Proof {
    p.(status := if approved then APPROVED else REJECTED,
       verifications := p.verifications + [v],
       notified := p.notified + [approved],
       hasPayout := p.hasPayout || approved)
  }

  /** Status, verification, notification and payout row; the payout's unique key may abort it all. */
  function WriteVerdict(s: Store, id: ProofId, approved: bool, v: Verification): Outcome {
    if id !in s.proofs || (approved && s.proofs[id].hasPayout) then Abort
    else Commit(s.(proofs := s.proofs[id := WithVerdict(s.proofs[id], approved, v)]))
  }

  function CapacityNote(choice: Choice, free: bool): Note {
    if choice.Approve? && !free then AutoRejectedAtCapacity else Plain
  }

  /** The slot claim and the final status it leads to: an approval without a slot becomes a rejection. */
  function AfterSlot(s: Store, t: TaskId, choice: Choice): Store {
    if choice.Approve? then s.(tasks := ClaimSlot(s.tasks, t)) else s
  }

  predicate FinallyApproved(s: Store, t: TaskId, choice: Choice) {
    choice.Approve? && SlotFree(s.tasks, t)
  }

  function VerdictRow(s: Store, t: TaskId, verifier: Verifier, choice: Choice): Verification {
    Verification(verifier, Judged(choice), CapacityNote(choice, SlotFree(s.tasks, t)))
  }

  /** The verification worker's verdict transaction. The status update carries no status guard. */
  function WorkerVerdictTx(s: Store, id: ProofId, t: TaskId, choice: Choice): Outcome {
    WriteVerdict(AfterSlot(s, t, choice), id, FinallyApproved(s, t, choice), VerdictRow(s, t, Auto, choice))
  }

  /** The admin's transaction. The slot is claimed before the guarded status update may match no row. */
  function ReviewTx(s: Store, id: ProofId, t: TaskId, admin: UserId, choice: Choice): Outcome {
    var s1 := AfterSlot(s, t, choice);
    if id in s.proofs && Awaiting(s.proofs[id].status) then
      WriteVerdict(s1, id, FinallyApproved(s, t, choice), VerdictRow(s, t, Admin(admin), choice))
    else
      Commit(s1)
  }

  // ---- voters' review counts and reputations ----

  function WithChoice(submitted: seq<Ballot>, c: Choice): seq<Ballot> {
    if submitted == [] then []
    else
      var last := submitted[|submitted| - 1];
      var init := WithChoice(submitted[..|submitted| - 1], c);
      if last.choice == c then init + [last] else init
  }

  /** One loop of `user.update` calls; a missing user aborts. */
  function Credit(users: map<UserId, User>, ballots: seq<Ballot>, reviews: nat, reputation: int): Option<map<UserId,
                  User>> {
    if ballots == [] then Some(users)
    else
      var v := ballots[|ballots| - 1].validator;
      var before := Credit(users, ballots[..|ballots| - 1], reviews, reputation);
      if before.None? || v !in before.value then None
      else
        var u := before.value[v];
        Some(before.value[v := u.(reviewCount := u.reviewCount + reviews,
                                  validatorReputation := u.validatorReputation + reputation)])
  }

  function Reward(users: map<UserId, User>, submitted: seq<Ballot>, verdict: Choice): Option<map<UserId, User>> {
    var reviewed := Credit(users, submitted, 1, 0);
    if reviewed.None? then None
    else
      var agreed := Credit(reviewed.value, WithChoice(submitted, verdict), 0, 1);
      if agreed.None? then None
      else Credit(agreed.value, WithChoice(submitted, Other(verdict)), 0, -1)
  }

  /** The write part of `finalizeProof`, after its status read found the proof undecided. */
  function FinalizeTx(s: Store, id: ProofId, t: TaskId, verdict: Choice, submitted: seq<Ballot>): Outcome {
    var s1 := AfterSlot(s, t, verdict);
    if id in s.proofs && Awaiting(s.proofs[id].status) then
      var users := Reward(s.users, submitted, verdict);
      if users.None? then Abort
      else WriteVerdict(s1.(users := users.value), id, FinallyApproved(s, t, verdict),
          VerdictRow(s, t, Quorum, verdict))
    else
      Commit(s1)
  }

  const NO_QUORUM_ROW := Verification(Quorum, Inconclusive, NoQuorumReached)

  /** The escalation transaction of `resolveQuorum` on a full ballot without a quorum. */
  function NoQuorumTx(s: Store, id: ProofId, submitted: seq<Ballot>): Outcome {
    var users := Credit(s.users, submitted, 1, 0);
    if users.None? || id !in s.proofs then Abort
    else
      var p := s.proofs[id];
      var row := NO_QUORUM_ROW;
      Commit(s.(users := users.value, proofs := s.proofs[id := p.(verifications := p.verifications + [row])]))
  }

  // ---- verification rows without a verdict, assignment and votes ----

  /** PENDING to VERIFYING, the worker's claim on a proof. */
  function BeginVerify(s: Store, id: ProofId): Store {
    if id in s.proofs && s.proofs[id].status.PENDING? then
      s.(proofs := s.proofs[id := s.proofs[id].(status := VERIFYING)])
    else s
  }

  function RecordInconclusiveTx(s: Store, id: ProofId): Outcome {
    if id !in s.proofs then Abort
    else
      var p := s.proofs[id];
      var row := Verification(Auto, Inconclusive, Plain);
      Commit(s.(proofs := s.proofs[id := p.(verifications := p.verifications + [row])]))
  }

  const NO_VALIDATORS_ROW := Verification(Auto, Inconclusive, NoValidatorsAvailable)

  /** `escalateToManualReview`: back to PENDING, with one marker row however often it runs. */
  function EscalateTx(s: Store, id: ProofId): Store {
    if id !in s.proofs then s
    else
      var p := s.proofs[id];
      var q := if p.status.VERIFYING? then p.(status := PENDING) else p;
      var marked := NO_VALIDATORS_ROW in p.verifications || !p.status.VERIFYING?;
      s.(proofs := s.proofs[id := if marked then q else q.(verifications := q.verifications + [NO_VALIDATORS_ROW])])
  }

  function NewRows(chosen: seq<UserId>): Votes {
    map v | v in chosen :: None
  }

  /** `createMany` of vote rows: (proofId, validatorId) is unique, so one clash aborts them all. */
  function AssignTx(s: Store, id: ProofId, chosen: seq<UserId>): Outcome {
    if id !in s.proofs || (exists i :: 0 <= i < |chosen| && chosen[i] in s.proofs[id].votes) then Abort
    else
      var p := s.proofs[id];
      Commit(s.(proofs := s.proofs[id := p.(votes := p.votes + NewRows(chosen))]))
  }

  /** The vote write: an update by row id, with no guard on the earlier verdict. */
  function VoteTx(s: Store, id: ProofId, v: UserId, c: Choice): Outcome {
    if id !in s.proofs || v !in s.proofs[id].votes then Abort
    else
      var p := s.proofs[id];
      Commit(s.(proofs := s.proofs[id := p.(votes := p.votes[v := Some(c)])]))
  }

  function Candidates(users: map<UserId, User>, submitter: UserId): set<UserId> {
    set u | u in users && users[u].validator && u != submitter
  }

  /** Up to `take` validators other than the submitter, lowest review count first, ties in any order. */
  ghost predicate LeastLoaded(users: map<UserId, User>, submitter: UserId, take: nat, chosen: seq<UserId>) {
    var eligible := Candidates(users, submitter);
    && Distinct(chosen)
    && (forall i :: 0 <= i < |chosen| ==> chosen[i] in eligible)
    && |chosen| == (if |eligible| < take then |eligible| else take)
    && (forall i, j :: 0 <= i < j < |chosen| ==> users[chosen[i]].reviewCount <= users[chosen[j]].reviewCount)
    && (forall i, u :: 0 <= i < |chosen| && u in eligible && u !in chosen ==>
        users[chosen[i]].reviewCount <= users[u].reviewCount)
  }

  // ---- submission and expiry ----

  datatype Eligibility = Refused(code: nat) | Eligible

  predicate HoldsClaim(s: Store, t: TaskId, u: UserId, now: int) {
    (t, u) in s.claims && s.claims[(t, u)].status.Held? && s.claims[(t, u)].expiresAt > now
  }

  function CheckEligibility(s: Store, t: TaskId, u: UserId, now: int): Eligibility {
    if t !in s.tasks then Refused(404)
    else if !s.tasks[t].status.ACTIVE? then Refused(400)
    else if !HoldsClaim(s, t, u, now) then Refused(403)
    else if s.tasks[t].maxCompletions.Some? && s.tasks[t].completedCount >= s.tasks[t].maxCompletions.value
    then Refused(409)
    else Eligible
  }

  const NO_VOTES: Votes := map[]

  function SubmitTx(s: Store, id: ProofId, t: TaskId, u: UserId, now: int): Store {
    if CheckEligibility(s, t, u, now).Eligible? then
      s.(proofs := s.proofs[id := Proof(u, t, PENDING, NO_VOTES, [], [], false)])
    else s
  }

  /** Removing a proof whose enqueue failed: verification and payout rows still pointing at it block the delete. */
  function RollbackTx(s: Store, id: ProofId): Outcome {
    if id !in s.proofs || s.proofs[id].verifications != [] || s.proofs[id].hasPayout then Abort
    else Commit(s.(proofs := s.proofs - {id}))
  }

  function ExpireTask(task: Task, now: int): Task {
    if task.status.ACTIVE? && task.expiresAt.Some? && task.expiresAt.value < now then task.(status := EXPIRED) else task
  }

  function ExpireTasks(s: Store, now: int): Store {
    s.(tasks := map t | t in s.tasks :: ExpireTask(s.tasks[t], now))
  }

  function ExpireClaim(claim: Claim, now: int): Claim {
    if claim.status.Held? && claim.expiresAt < now then claim.(status := Lapsed) else claim
  }

  function ExpireClaims(s: Store, now: int): Store {
    s.(claims := map k | k in s.claims :: ExpireClaim(s.claims[k], now))
  }

  // ---- the effect of the crediting loops on each user ----

  ghost function Voters(ballots: seq<Ballot>): set<UserId> {
    set i | 0 <= i < |ballots| :: ballots[i].validator
  }

  ghost predicate DistinctVoters(ballots: seq<Ballot>) {
    forall i, j :: 0 <= i < j < |ballots| ==> ballots[i].validator != ballots[j].validator
  }

  lemma {:induction false} CreditEffect(users: map<UserId, User>, ballots: seq<Ballot>, reviews: nat, reputation: int)
    requires DistinctVoters(ballots)
    ensures Credit(users, ballots, reviews, reputation).Some? <==> Voters(ballots) <= users.Keys
    ensures Credit(users, ballots, reviews, reputation).Some? ==>
              var after := Credit(users, ballots, reviews, reputation).value;
              && after.Keys == users.Keys
              && forall u :: u in users ==>
                  after[u] == (if u in Voters(ballots)
                    then users[u].(reviewCount := users[u].reviewCount + reviews,
                                   validatorReputation := users[u].validatorReputation + reputation)
                    else users[u])
  {
    if ballots == [] {
    } else {
      var init := ballots[..|ballots| - 1];
      var v := ballots[|ballots| - 1].validator;
      CreditEffect(users, init, reviews, reputation);
      assert Voters(ballots) == Voters(init) + {v} by {
        forall u | u in Voters(ballots)
          ensures u in Voters(init) + {v}
        {
          var i :| 0 <= i < |ballots| && ballots[i].validator == u;
          if i < |init| { assert init[i].validator == u; }
        }
        forall u | u in Voters(init)
          ensures u in Voters(ballots)
        {
          var i :| 0 <= i < |init| && init[i].validator == u;
          assert ballots[i].validator == u;
        }
      }
      assert v !in Voters(init);
    }
  }

  ghost function VotersOf(ballots: seq<Ballot>, c: Choice): set<UserId> {
    set i | 0 <= i < |ballots| && ballots[i].choice == c :: ballots[i].validator
  }

  lemma {:induction false} WithChoiceVoters(ballots: seq<Ballot>, c: Choice)
    ensures Voters(WithChoice(ballots, c)) == VotersOf(ballots, c)
    ensures DistinctVoters(ballots) ==> DistinctVoters(WithChoice(ballots, c))
  {
    if ballots != [] {
      var init := ballots[..|ballots| - 1];
      var last := ballots[|ballots| - 1];
      WithChoiceVoters(init, c);
      forall u | u in VotersOf(ballots, c)
        ensures u in VotersOf(init, c) || (last.choice == c && u == last.validator)
      {
        var i :| 0 <= i < |ballots| && ballots[i].choice == c && ballots[i].validator == u;
        if i < |init| { assert init[i].validator == u; }
      }
      forall u | u in VotersOf(init, c)
        ensures u in VotersOf(ballots, c)
      {
        var i :| 0 <= i < |init| && init[i].choice == c && init[i].validator == u;
        assert ballots[i].validator == u;
      }
      var w := WithChoice(init, c);
      if last.choice == c {
        assert last.validator in VotersOf(ballots, c);
        forall u
          ensures u in Voters(w + [last]) <==> u in Voters(w) || u == last.validator
        {
          if u in Voters(w) {
            var i :| 0 <= i < |w| && w[i].validator == u;
            assert (w + [last])[i].validator == u;
          }
          if u == last.validator { assert (w + [last])[|w|].validator == u; }
        }
        if DistinctVoters(ballots) {
          forall i | 0 <= i < |w|
            ensures w[i].validator != last.validator
          {
            assert w[i].validator in VotersOf(init, c);
          }
        }
      }
    }
  }

  lemma VoterChoice(ballots: seq<Ballot>, i: nat, c: Choice)
    requires DistinctVoters(ballots) && i < |ballots|
    ensures ballots[i].validator in Voters(ballots)
    ensures ballots[i].validator in VotersOf(ballots, c) <==> ballots[i].choice == c
  {
    var u := ballots[i].validator;
    if u in VotersOf(ballots, c) {
      var j :| 0 <= j < |ballots| && ballots[j].choice == c && ballots[j].validator == u;
      assert j == i;
    }
  }

  lemma ChoiceVotersWithin(ballots: seq<Ballot>, c: Choice)
    ensures VotersOf(ballots, c) <= Voters(ballots)
  {}

  /** What the three crediting loops do to a user, given by the user's part in the vote. */
  ghost function Rewarded(u: User, ballots: seq<Ballot>, id: UserId, verdict: Choice): User {
    var u1 := if id in Voters(ballots) then u.(reviewCount := u.reviewCount + 1) else u;
    var u2 := if id in VotersOf(ballots, verdict) then u1.(validatorReputation := u1.validatorReputation + 1) else u1;
    if id in VotersOf(ballots, Other(verdict)) then u2.(validatorReputation := u2.validatorReputation - 1) else u2
  }

  /** What the three loops leave of one user, from what each loop leaves. */
  lemma ThreeCredits(before: User, ballots: seq<Ballot>, id: UserId, verdict: Choice, u1: User, u2: User, u3: User)
    requires u1 == if id in Voters(ballots) then before.(reviewCount := before.reviewCount + 1) else before
    requires u2 == if id in VotersOf(ballots, verdict)
                   then u1.(validatorReputation := u1.validatorReputation + 1) else u1
    requires u3 == if id in VotersOf(ballots, Other(verdict))
                   then u2.(validatorReputation := u2.validatorReputation + -1) else u2
    ensures u3 == Rewarded(before, ballots, id, verdict)
  {}

  lemma RewardPointwise(users: map<UserId, User>, submitted: seq<Ballot>, verdict: Choice)
    requires DistinctVoters(submitted)
    ensures Reward(users, submitted, verdict).Some? <==> Voters(submitted) <= users.Keys
    ensures Reward(users, submitted, verdict).Some? ==>
              var after := Reward(users, submitted, verdict).value;
              && after.Keys == users.Keys
              && forall u :: u in users ==> after[u] == Rewarded(users[u], submitted, u, verdict)
  {
    CreditEffect(users, submitted, 1, 0);
    if Voters(submitted) <= users.Keys {
      var reviewed := Credit(users, submitted, 1, 0).value;
      var agreeing, others := WithChoice(submitted, verdict), WithChoice(submitted, Other(verdict));
      WithChoiceVoters(submitted, verdict);
      WithChoiceVoters(submitted, Other(verdict));
      ChoiceVotersWithin(submitted, verdict);
      ChoiceVotersWithin(submitted, Other(verdict));
      CreditEffect(reviewed, agreeing, 0, 1);
      var agreed := Credit(reviewed, agreeing, 0, 1).value;
      CreditEffect(agreed, others, 0, -1);
      var after := Credit(agreed, others, 0, -1).value;
      forall u | u in users
        ensures after[u] == Rewarded(users[u], submitted, u, verdict)
      {
        ThreeCredits(users[u], submitted, u, verdict, reviewed[u], agreed[u], after[u]);
      }
    }
  }

  /**
   * One finalization: every voter's review count grows by one, the reputation of those who
   * agreed with the verdict by one, that of those who did not falls by one, and no one else changes.
   */
  lemma RewardEffect(users: map<UserId, User>, submitted: seq<Ballot>, verdict: Choice, after: map<UserId, User>)
    requires DistinctVoters(submitted)
    requires Reward(users, submitted, verdict) == Some(after)
    ensures after.Keys == users.Keys
    ensures forall u :: u in users && u !in Voters(submitted) ==> after[u] == users[u]
    ensures forall i :: 0 <= i < |submitted| ==>
              var u := submitted[i].validator;
              && u in users
              && after[u].reviewCount == users[u].reviewCount + 1
              && after[u].validatorReputation
                 == users[u].validatorReputation + (if submitted[i].choice == verdict then 1 else -1)
              && after[u].validator == users[u].validator
  {
    RewardPointwise(users, submitted, verdict);
    ChoiceVotersWithin(submitted, verdict);
    ChoiceVotersWithin(submitted, Other(verdict));
    forall i | 0 <= i < |submitted|
      ensures var u := submitted[i].validator;
              && u in users
              && after[u] == Rewarded(users[u], submitted, u, verdict)
              && u in Voters(submitted)
              && (u in VotersOf(submitted, verdict) <==> submitted[i].choice == verdict)
              && (u in VotersOf(submitted, Other(verdict)) <==> submitted[i].choice != verdict)
    {
      VoterChoice(submitted, i, verdict);
      VoterChoice(submitted, i, Other(verdict));
    }
  }

  /** A finalization that finds the proof undecided, unpaid and its voters present decides it and keeps its votes. */
  lemma FinalizeDecides(s: Store, id: ProofId, t: TaskId, w: Choice, submitted: seq<Ballot>)
    requires DistinctVoters(submitted) && Voters(submitted) <= s.users.Keys
    requires id in s.proofs && Awaiting(s.proofs[id].status) && !s.proofs[id].hasPayout
    ensures var o := FinalizeTx(s, id, t, w, submitted);
            && o.Commit?
            && Reward(s.users, submitted, w) == Some(o.store.users)
            && id in o.store.proofs
            && Decided(o.store.proofs[id].status)
            && o.store.proofs[id].votes == s.proofs[id].votes
  {
    RewardPointwise(s.users, submitted, w);
  }

  /** An escalation with its voters present records its row and leaves status and votes alone. */
  lemma NoQuorumRecords(s: Store, id: ProofId, submitted: seq<Ballot>)
    requires DistinctVoters(submitted) && Voters(submitted) <= s.users.Keys && id in s.proofs
    ensures var o := NoQuorumTx(s, id, submitted);
            && o.Commit?
            && Credit(s.users, submitted, 1, 0) == Some(o.store.users)
            && id in o.store.proofs
            && o.store.proofs[id] == s.proofs[id].(verifications := s.proofs[id].verifications + [NO_QUORUM_ROW])
  {
    CreditEffect(s.users, submitted, 1, 0);
  }

  /** A snapshot holds one ballot per voter, all from the proof's own rows. */
  lemma {:induction false} SnapshotBallots(votes: Votes, order: seq<UserId>)
    requires Distinct(order)
    ensures DistinctVoters(Submitted(votes, order))
    ensures forall i :: 0 <= i < |Submitted(votes, order)| ==>
              Submitted(votes, order)[i].validator in order && Submitted(votes, order)[i].validator in votes
  {
    if order != [] {
      var init := order[..|order| - 1];
      SnapshotBallots(votes, init);
      assert order == init + [order[|order| - 1]];
    }
  }
}
