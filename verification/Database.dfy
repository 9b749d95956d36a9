/**
 * The transactions as the services run them: statement by statement on mutable tables, with a rollback
 * when one fails. Each is proved to have exactly the effect of its function in `Store`.
 */
module Database {
  import opened Common
  import opened Tally
  import opened Store
  import opened Protocol
  import opened Decisions
  import opened Batch

  datatype VoteOutcome =
    | VoteNotFound
    | VoteAlreadyCast
    | NotAwaitingReview
    | Accepted(finalized: bool, status: Option<ProofStatus>, escalated: bool)

  class Database {
    var tasks: map<TaskId, Task>
    var proofs: map<ProofId, Proof>
    var users: map<UserId, User>
    var claims: map<(TaskId, UserId), Claim>

    ghost function Contents(): Store
      reads this
    {
      Store(tasks, proofs, users, claims)
    }

    constructor ()
      ensures Contents() == Empty(Config(0, 0)).store
    {
      tasks, proofs, users, claims := map[], map[], map[], map[];
    }

    /** UPDATE ... WHERE status = 'ACTIVE' AND (max IS NULL OR count < max) RETURNING status. */
    method ClaimCompletionSlot(t: TaskId) returns (claimed: bool, taskCompleted: bool)
      modifies this`tasks
      ensures tasks == ClaimSlot(old(tasks), t) && claimed == SlotFree(old(tasks), t)
      ensures claimed <==> t in old(tasks) && HasRoom(old(tasks)[t])
      ensures if claimed then t in tasks && OneMore(old(tasks)[t], tasks[t]) && tasks == old(tasks)[t := tasks[t]]
              else tasks == old(tasks)
      ensures taskCompleted <==> claimed && tasks[t].status.COMPLETED?
    {
      claimed, taskCompleted := false, false;
      if t in tasks && tasks[t].status.ACTIVE? {
        var row := tasks[t];
        if row.maxCompletions.None? || row.completedCount < row.maxCompletions.value {
          row := row.(completedCount := row.completedCount + 1);
          if row.maxCompletions.Some? && row.completedCount >= row.maxCompletions.value {
            row := row.(status := COMPLETED);
          }
          tasks := tasks[t := row];
          claimed, taskCompleted := true, row.status.COMPLETED?;
        }
      }
    }

    /** Verification row, notification row and, on approval, the payout row with its unique key. */
    method InsertVerdictRows(p: ProofId, approved: bool, v: Verification) returns (ok: bool)
      requires p in proofs
      modifies this`proofs
      ensures ok <==> !(approved && old(proofs[p].hasPayout))
      ensures ok ==> proofs == old(proofs[p := proofs[p].(
                                  verifications := proofs[p].verifications + [v],
                                  notified := proofs[p].notified + [approved],
                                  hasPayout := proofs[p].hasPayout || approved)])
    {
      proofs := proofs[p := proofs[p].(verifications := proofs[p].verifications + [v])];
      proofs := proofs[p := proofs[p].(notified := proofs[p].notified + [approved])];
      ok := true;
      if approved {
        if proofs[p].hasPayout {
          return false;
        }
        proofs := proofs[p := proofs[p].(hasPayout := true)];
      }
    }

    /** The approved and rejected branches of the verification worker. */
    method WorkerVerdict(p: ProofId, t: TaskId, choice: Choice) returns (committed: bool)
      modifies this
      ensures var o := WorkerVerdictTx(old(Contents()), p, t, choice);
              committed == o.Commit? && Contents() == Settle(old(Contents()), o)
      ensures p !in old(proofs) ==> !committed
      ensures p in old(proofs) && old(proofs)[p].task == t && t in old(tasks) ==>
                (committed <==> !PaysTwice(old(Contents()), p, choice))
      ensures committed && old(proofs)[p].task == t && t in old(tasks) ==>
                DecidesAs(old(Contents()), Contents(), p, Auto, choice)
      ensures users == old(users) && (!committed ==> Contents() == old(Contents()))
    {
      if p in proofs && proofs[p].task == t && t in tasks {
        WorkerVerdictWritten(Contents(), p, choice);
      }
      var tasks0, proofs0 := tasks, proofs;
      var finalApproved, note := false, Plain;
      if choice.Approve? {
        var claimed, _ := ClaimCompletionSlot(t);
        if claimed {
          finalApproved := true;
        } else {
          note := AutoRejectedAtCapacity;
        }
      }
      committed := false;
      if p in proofs {
        proofs := proofs[p := proofs[p].(status := if finalApproved then APPROVED else REJECTED)];
        committed := InsertVerdictRows(p, finalApproved, Verification(Auto, Judged(choice), note));
      }
      if !committed {
        tasks, proofs := tasks0, proofs0;
      }
    }

    /** The transaction of `reviewProof`: `updated` is false when it answers 409 after all. */
    method Review(p: ProofId, t: TaskId, admin: UserId, choice: Choice) returns (committed: bool, updated: bool)
      modifies this
      ensures var o := ReviewTx(old(Contents()), p, t, admin, choice);
              committed == o.Commit? && Contents() == Settle(old(Contents()), o)
      ensures updated ==> committed
      ensures committed ==> (updated <==> p in old(proofs) && Awaiting(old(proofs)[p].status))
      ensures committed && !updated ==> KeepsSlot(old(Contents()), Contents(), t, choice)
      ensures updated && old(proofs)[p].task == t && t in old(tasks) ==>
                DecidesAs(old(Contents()), Contents(), p, Admin(admin), choice)
      ensures users == old(users) && (!committed ==> Contents() == old(Contents()))
    {
      if p in proofs && Awaiting(proofs[p].status) ==> proofs[p].task == t && t in tasks {
        ReviewWritten(Contents(), p, t, admin, choice);
      }
      var tasks0, proofs0 := tasks, proofs;
      var finalApproved, note := false, Plain;
      if choice.Approve? {
        var claimed, _ := ClaimCompletionSlot(t);
        if claimed {
          finalApproved := true;
        } else {
          note := AutoRejectedAtCapacity;
        }
      }
      if p !in proofs || !Awaiting(proofs[p].status) {
        return true, false;
      }
      proofs := proofs[p := proofs[p].(status := if finalApproved then APPROVED else REJECTED)];
      committed := InsertVerdictRows(p, finalApproved, Verification(Admin(admin), Judged(choice), note));
      updated := committed;
      if !committed {
        tasks, proofs := tasks0, proofs0;
      }
    }

    /** One `for` loop of `user.update` calls over ballots. */
    method CreditEach(ballots: seq<Ballot>, reviews: nat, reputation: int) returns (ok: bool)
      modifies this`users
      ensures ok == Credit(old(users), ballots, reviews, reputation).Some?
      ensures ok ==> users == Credit(old(users), ballots, reviews, reputation).value
    {
      var i := 0;
      while i < |ballots|
        invariant 0 <= i <= |ballots|
        invariant Credit(old(users), ballots[..i], reviews, reputation) == Some(users)
      {
        var v := ballots[i].validator;
        assert ballots[..i + 1][..i] == ballots[..i];
        if v !in users {
          CreditFailsLater(old(users), ballots, i + 1, reviews, reputation);
          return false;
        }
        var u := users[v];
        users := users[v := u.(reviewCount := u.reviewCount + reviews,
                               validatorReputation := u.validatorReputation + reputation)];
        i := i + 1;
      }
      assert ballots[..i] == ballots;
      ok := true;
    }

    static lemma CreditFailsLater(users: map<UserId, User>, ballots: seq<Ballot>, i: nat, reviews: nat, reputation: int)
      requires i <= |ballots| && Credit(users, ballots[..i], reviews, reputation).None?
      ensures Credit(users, ballots, reviews, reputation).None?
      decreases |ballots|
    {
      if i == |ballots| {
        assert ballots[..i] == ballots;
      } else {
        var init := ballots[..|ballots| - 1];
        assert init[..i] == ballots[..i];
        CreditFailsLater(users, init, i, reviews, reputation);
      }
    }

    method Filter(ballots: seq<Ballot>, c: Choice) returns (chosen: seq<Ballot>)
      ensures chosen == WithChoice(ballots, c)
    {
      chosen := [];
      for i := 0 to |ballots|
        invariant chosen == WithChoice(ballots[..i], c)
      {
        assert ballots[..i + 1][..i] == ballots[..i];
        if ballots[i].choice == c {
          chosen := chosen + [ballots[i]];
        }
      }
      assert ballots[..|ballots|] == ballots;
    }

    /** The three crediting loops of `finalizeProof`. */
    method CreditVoters(submitted: seq<Ballot>, verdict: Choice) returns (ok: bool)
      modifies this`users
      ensures ok == Reward(old(users), submitted, verdict).Some?
      ensures ok ==> users == Reward(old(users), submitted, verdict).value
    {
      var agreement := Filter(submitted, verdict);
      var disagreement := Filter(submitted, Other(verdict));
      ok := CreditEach(submitted, 1, 0);
      if ok {
        ok := CreditEach(agreement, 0, 1);
        if ok {
          ok := CreditEach(disagreement, 0, -1);
        }
      }
    }

    /** The writes of `finalizeProof`, after its read found the proof undecided. */
    method Finalize(p: ProofId, t: TaskId, verdict: Choice, submitted: seq<Ballot>) returns (committed: bool)
      modifies this
      ensures var o := FinalizeTx(old(Contents()), p, t, verdict, submitted);
              committed == o.Commit? && Contents() == Settle(old(Contents()), o)
    {
      var tasks0, proofs0, users0 := tasks, proofs, users;
      var finalApproved, note := false, Plain;
      if verdict.Approve? {
        var claimed, _ := ClaimCompletionSlot(t);
        if claimed {
          finalApproved := true;
        } else {
          note := AutoRejectedAtCapacity;
        }
      }
      if p !in proofs || !Awaiting(proofs[p].status) {
        return true;
      }
      proofs := proofs[p := proofs[p].(status := if finalApproved then APPROVED else REJECTED)];
      committed := CreditVoters(submitted, verdict);
      if committed {
        committed := InsertVerdictRows(p, finalApproved, Verification(Quorum, Judged(verdict), note));
      }
      if !committed {
        tasks, proofs, users := tasks0, proofs0, users0;
      }
    }

    method EscalateNoQuorum(p: ProofId, submitted: seq<Ballot>) returns (committed: bool)
      modifies this
      ensures var o := NoQuorumTx(old(Contents()), p, submitted);
              committed == o.Commit? && Contents() == Settle(old(Contents()), o)
      ensures committed ==> Escalates(old(Contents()), Contents(), p)
    {
      var users0 := users;
      committed := CreditEach(submitted, 1, 0);
      if committed && p in proofs {
        proofs := proofs[p := proofs[p].(verifications := proofs[p].verifications
                                           + [NO_QUORUM_ROW])];
      } else {
        committed := false;
        users := users0;
      }
    }

    method EscalateToManualReview(p: ProofId) returns (escalated: bool)
      modifies this`proofs
      ensures Contents() == EscalateTx(old(Contents()), p)
      ensures p !in old(proofs) ==> proofs == old(proofs)
      ensures p in old(proofs) ==> ReturnsToReview(old(proofs), proofs, p)
      ensures escalated <==> p in proofs && NO_VALIDATORS_ROW in proofs[p].verifications
    {
      var count := 0;
      if p in proofs && proofs[p].status.VERIFYING? {
        proofs := proofs[p := proofs[p].(status := PENDING)];
        count := 1;
      }
      if p in proofs && NO_VALIDATORS_ROW in proofs[p].verifications {
        return true;
      }
      if count == 0 {
        return false;
      }
      proofs := proofs[p := proofs[p].(verifications := proofs[p].verifications + [NO_VALIDATORS_ROW])];
      escalated := true;
    }

    /** The worker's job with nothing else in between; `verdict` is what autoVerify returns, or that it throws. */
    method VerifyProof(p: ProofId, retry: bool, verdict: AutoVerdict, assignmentCount: nat)
      returns (ghost chosen: seq<UserId>)
      requires p in proofs ==> proofs[p].task in tasks
      modifies this
      ensures !TakenUp(old(proofs), p, retry) ==> Contents() == old(Contents())
      ensures TakenUp(old(proofs), p, retry) && verdict.AutoThrows? ==> Contents() == Taken(old(Contents()), p)
      ensures TakenUp(old(proofs), p, retry) && (verdict.AutoApproved? || verdict.AutoRejected?) ==>
                var asked := if verdict.AutoApproved? then Approve else Reject;
                && users == old(users)
                && if PaysTwice(old(Contents()), p, asked) then Contents() == Taken(old(Contents()), p)
                   else DecidesAs(Taken(old(Contents()), p), Contents(), p, Auto, asked)
      ensures TakenUp(old(proofs), p, retry) && verdict.AutoInconclusive? ==>
                && tasks == old(tasks) && users == old(users) && claims == old(claims)
                && (if old(proofs)[p].votes != map[] then chosen == []
                    else LeastLoaded(users, old(proofs)[p].submitter, assignmentCount, chosen))
                && Referred(Taken(old(Contents()), p).proofs, proofs, p, chosen)
    {
      chosen := [];
      if p !in proofs {
        return;
      }
      if proofs[p].status.PENDING? {
        proofs := proofs[p := proofs[p].(status := VERIFYING)];
      } else if !(proofs[p].status.VERIFYING? && retry) {
        return;
      }
      assert Contents() == Taken(old(Contents()), p);
      match verdict
      case AutoThrows =>
      case AutoApproved => var _ := WorkerVerdict(p, proofs[p].task, Approve);
      case AutoRejected => var _ := WorkerVerdict(p, proofs[p].task, Reject);
      case AutoInconclusive => chosen := Refer(p, assignmentCount);
    }

    /** The inconclusive branch: validators are assigned if the proof has none, and if there are any. */
    method Refer(p: ProofId, assignmentCount: nat) returns (chosen: seq<UserId>)
      requires p in proofs && proofs[p].status.VERIFYING?
      modifies this`proofs
      ensures if old(proofs)[p].votes != map[] then chosen == []
              else LeastLoaded(users, old(proofs)[p].submitter, assignmentCount, chosen)
      ensures Referred(old(proofs), proofs, p, chosen)
    {
      chosen := [];
      if proofs[p].votes == map[] {
        chosen := PickValidators(proofs[p].submitter, assignmentCount);
        if chosen == [] {
          var _ := EscalateToManualReview(p);
          return;
        }
        var _ := AssignValidators(p, chosen);
      }
      proofs := proofs[p := proofs[p].(verifications := proofs[p].verifications
                                         + [Verification(Auto, Inconclusive, Plain)])];
    }

    /** Validators other than the submitter, in order of their review count, as many as are to be assigned. */
    method PickValidators(submitter: UserId, take: nat) returns (chosen: seq<UserId>)
      ensures LeastLoaded(users, submitter, take, chosen)
    {
      var load := map u | u in users :: users[u].reviewCount as int;
      chosen := TakeOldest(load, Candidates(users, submitter), take);
    }

    /** `createMany`, row by row; a second row for one validator violates the unique key. */
    static method InsertRows(votes: Votes, chosen: seq<UserId>) returns (ok: bool, rows: Votes)
      requires Distinct(chosen)
      ensures ok <==> forall i :: 0 <= i < |chosen| ==> chosen[i] !in votes
      ensures ok ==> rows == votes + NewRows(chosen)
    {
      rows := votes;
      var i := 0;
      while i < |chosen|
        invariant 0 <= i <= |chosen|
        invariant rows.Keys == votes.Keys + NewRows(chosen[..i]).Keys
        invariant forall v :: v in rows ==> rows[v] == if v in votes then votes[v] else None
        invariant forall j :: 0 <= j < i ==> chosen[j] !in votes
      {
        if chosen[i] in rows {
          return false, votes;
        }
        assert chosen[..i + 1] == chosen[..i] + [chosen[i]];
        NewRowsSnoc(chosen[..i], chosen[i]);
        rows := rows[chosen[i] := None];
        i := i + 1;
      }
      assert chosen[..i] == chosen;
      NewRowsDisjoint(votes, chosen, rows);
      ok := true;
    }

    static lemma NewRowsSnoc(chosen: seq<UserId>, v: UserId)
      ensures NewRows(chosen + [v]).Keys == NewRows(chosen).Keys + {v}
    {}

    static lemma NewRowsDisjoint(votes: Votes, chosen: seq<UserId>, rows: Votes)
      requires forall j :: 0 <= j < |chosen| ==> chosen[j] !in votes
      requires rows.Keys == votes.Keys + NewRows(chosen).Keys
      requires forall v :: v in rows ==> rows[v] == if v in votes then votes[v] else None
      ensures rows == votes + NewRows(chosen)
    {}

    method AssignValidators(p: ProofId, chosen: seq<UserId>) returns (committed: bool)
      requires Distinct(chosen)
      modifies this`proofs
      ensures var o := AssignTx(old(Contents()), p, chosen);
              committed == o.Commit? && Contents() == Settle(old(Contents()), o)
      ensures committed <==> p in old(proofs) && forall i :: 0 <= i < |chosen| ==> chosen[i] !in old(proofs)[p].votes
      ensures committed ==> p in proofs && Assigned(old(proofs), proofs, p, chosen)
    {
      if p !in proofs {
        return false;
      }
      var ok, rows := InsertRows(proofs[p].votes, chosen);
      if ok {
        proofs := proofs[p := proofs[p].(votes := rows)];
      }
      committed := ok;
    }

    /** The vote rows of a proof, in whatever order the database returns them. */
    method FetchVoteRows(p: ProofId) returns (rows: seq<UserId>)
      requires p in proofs
      ensures Lists(rows, proofs[p].votes.Keys)
    {
      rows := [];
      var rest := proofs[p].votes.Keys;
      while rest != {}
        invariant rest <= proofs[p].votes.Keys
        invariant Lists(rows, proofs[p].votes.Keys - rest)
        decreases rest
      {
        var v :| v in rest;
        rest := rest - {v};
        rows := rows + [v];
      }
      assert proofs[p].votes.Keys - rest == proofs[p].votes.Keys;
    }

    /** resolveQuorum with nothing else in between, on the rows in whatever order they come back. */
    method ResolveQuorum(p: ProofId, required: int) returns (r: Resolution)
      requires p in proofs && proofs[p].votes.Keys <= users.Keys && proofs[p].task in tasks
      requires Awaiting(proofs[p].status) ==> !proofs[p].hasPayout
      modifies this
      ensures p in proofs && proofs[p].votes == old(proofs[p].votes)
      ensures r.AlreadyFinal? <==> Decided(old(proofs[p].status))
      ensures Awaiting(old(proofs[p].status)) ==>
                && (r.Finalize? <==> HoldsQuorum(proofs[p].votes, required))
                && (r.Escalate? <==> proofs[p].votes.Keys != {} && AllCast(proofs[p].votes) && !r.Finalize?)
                && (Decided(proofs[p].status) <==> r.Finalize?)
      ensures r.Finalize? ==>
                && Reaches(proofs[p].votes, r.winner, required)
                && DecidesAs(old(Contents()), Contents(), p, Quorum, r.winner)
                && CreditsVoters(old(users), users, proofs[p].votes, r.winner)
      ensures r.Escalate? ==>
                && Escalates(old(Contents()), Contents(), p)
                && CountsReviews(old(users), users, proofs[p].votes)
      ensures !r.Finalize? && !r.Escalate? ==> Contents() == old(Contents())
    {
      if Decided(proofs[p].status) {
        return AlreadyFinal;
      }
      var rows := FetchVoteRows(p);
      ghost var votes := proofs[p].votes;
      var submitted := Submitted(proofs[p].votes, rows);
      ResolveOutcome(votes, rows, required);
      SnapshotBallots(votes, rows);
      if |submitted| == 0 {
        return Waiting;
      }
      var winner := FindWinner(submitted, required);
      if winner.Some? {
        QuorumFinalized(Contents(), p, winner.value, rows);
        var _ := Finalize(p, proofs[p].task, winner.value, submitted);
        return Resolution.Finalize(winner.value);
      }
      if |submitted| >= |rows| {
        BallotEscalated(Contents(), p, rows);
        var _ := EscalateNoQuorum(p, submitted);
        return Escalate;
      }
      r := Waiting;
    }

    /**
     * castVote run to completion with nothing else in between: the vote is recorded, and the proof is
     * then decided exactly if its votes hold a quorum, as a choice that has it says, or escalated exactly on a full
     * ballot without one.
     */
    method CastVote(p: ProofId, v: UserId, choice: Choice, required: int) returns (r: VoteOutcome)
      requires p in proofs ==> proofs[p].votes.Keys <= users.Keys && proofs[p].task in tasks
      requires p in proofs && Awaiting(proofs[p].status) ==> !proofs[p].hasPayout
      modifies this
      ensures r.VoteNotFound? <==> p !in old(proofs) || v !in old(proofs)[p].votes
      ensures r.VoteAlreadyCast? <==> p in old(proofs) && v in old(proofs)[p].votes && old(proofs)[p].votes[v].Some?
      ensures r.NotAwaitingReview? <==>
                && p in old(proofs) && v in old(proofs)[p].votes && old(proofs)[p].votes[v].None?
                && Decided(old(proofs)[p].status)
      ensures !r.Accepted? ==> Contents() == old(Contents())
      ensures r.Accepted? ==>
                && p in old(proofs) && v in old(proofs)[p].votes && p in proofs
                && proofs[p].votes == old(proofs)[p].votes[v := Some(choice)]
                && (r.finalized <==> HoldsQuorum(proofs[p].votes, required))
                && (r.finalized <==> Decided(proofs[p].status))
                && r.status == (if r.finalized then Some(proofs[p].status) else None)
                && (r.escalated <==> AllCast(proofs[p].votes) && !HoldsQuorum(proofs[p].votes, required))
      ensures r.Accepted? && r.finalized ==> exists w ::
                && Reaches(proofs[p].votes, w, required)
                && DecidesAs(Voted(old(Contents()), p, v, choice), Contents(), p, Quorum, w)
                && CreditsVoters(old(users), users, proofs[p].votes, w)
      ensures r.Accepted? && r.escalated ==>
                && Escalates(Voted(old(Contents()), p, v, choice), Contents(), p)
                && CountsReviews(old(users), users, proofs[p].votes)
      ensures r.Accepted? && !r.finalized && !r.escalated ==> Contents() == Voted(old(Contents()), p, v, choice)
    {
      if p !in proofs || v !in proofs[p].votes {
        return VoteNotFound;
      }
      if proofs[p].votes[v].Some? {
        return VoteAlreadyCast;
      }
      if !Awaiting(proofs[p].status) {
        return NotAwaitingReview;
      }
      proofs := proofs[p := proofs[p].(votes := proofs[p].votes[v := Some(choice)])];
      assert v in proofs[p].votes.Keys;
      var resolution := ResolveQuorum(p, required);
      r := Accepted(resolution.Finalize?, if resolution.Finalize? then Some(proofs[p].status) else None,
                    resolution.Escalate?);
    }

    static function OverdueTasks(tasks: map<TaskId, Task>, now: int): set<TaskId> {
      set t | t in tasks && tasks[t].status.ACTIVE? && tasks[t].expiresAt.Some? && tasks[t].expiresAt.value < now
    }

    static function OverdueClaims(claims: map<(TaskId, UserId), Claim>, now: int): set<(TaskId, UserId)> {
      set k | k in claims && claims[k].status.Held? && claims[k].expiresAt < now
    }

    /** A task is overdue if it is ACTIVE and its expiry has passed; a claim, if it is held and its own has. */
    static lemma OverdueWhen(tasks: map<TaskId, Task>, claims: map<(TaskId, UserId), Claim>, now: int)
      ensures forall t :: t in OverdueTasks(tasks, now) <==>
                t in tasks && tasks[t].status == ACTIVE && exists at :: tasks[t].expiresAt == Some(at) && at < now
      ensures forall k :: k in OverdueClaims(claims, now) <==>
                k in claims && claims[k].status == Held && claims[k].expiresAt < now
    {
      forall t | t in tasks
        ensures tasks[t].expiresAt.Some? && tasks[t].expiresAt.value < now <==>
                  exists at :: tasks[t].expiresAt == Some(at) && at < now
      {
        if tasks[t].expiresAt.Some? { assert tasks[t].expiresAt == Some(tasks[t].expiresAt.value); }
      }
    }

    /** Both bulk updates, with the numbers of rows they changed. */
    method ExpireOverdueTasks(now: int) returns (tasksExpired: nat, claimsExpired: nat)
      modifies this
      ensures Contents() == ExpireClaims(ExpireTasks(old(Contents()), now), now)
      ensures tasks.Keys == old(tasks).Keys && claims.Keys == old(claims).Keys
      ensures forall t :: t in tasks ==>
                tasks[t] == if t in OverdueTasks(old(tasks), now)
                            then old(tasks)[t].(status := EXPIRED) else old(tasks)[t]
      ensures forall k :: k in claims ==>
                claims[k] == if k in OverdueClaims(old(claims), now)
                             then old(claims)[k].(status := Lapsed) else old(claims)[k]
      ensures tasksExpired == |OverdueTasks(old(tasks), now)| && claimsExpired == |OverdueClaims(old(claims), now)|
      ensures OverdueTasks(tasks, now) == {} && OverdueClaims(claims, now) == {}
    {
      tasksExpired, claimsExpired := |OverdueTasks(tasks, now)|, |OverdueClaims(claims, now)|;
      tasks := map t | t in tasks :: ExpireTask(tasks[t], now);
      claims := map k | k in claims :: ExpireClaim(claims[k], now);
    }
  }
}
