/** Two runs with two validators: one ballot is escalated twice, and a vote is changed after the decision. */
module VoteRaces {
  import opened Common
  import opened Tally
  import opened Store
  import opened Protocol
  import opened ProtocolSafety
  import opened ProtocolTheorems
  import opened VoteCredit

  const CFG := Config(2, 2)
  const USERS: map<UserId, User> := map[0 := User(false, 0, 0), 1 := User(true, 0, 0), 2 := User(true, 0, 0)]
  const NO_CALLS: map<nat, Call> := map[]

  /** One task, one proof by user 0, and two validators. */
  function Scene(proof: Proof, calls: map<nat, Call>): System {
    var store := Store(map[0 := OPEN], map[0 := proof], USERS, map[(0, 0) := Claim(Held, 9)]);
    System(CFG, store, calls, {0}, multiset{}, {}, {}, multiset{}, map[])
  }

  lemma ScenesReachable()
    ensures Reachable(Scene(FRESH, NO_CALLS))
  {
    OnePendingReachable(CFG);
    var x0 := OnePending(CFG, NO_CALLS);
    var u0: map<UserId, User> := map[0 := User(false, 0, 0)];
    UserAdded(x0, u0, 1);
    UserAdded(x0, u0[1 := User(false, 0, 0)], 2);
    var u2 := u0[1 := User(false, 0, 0)][2 := User(false, 0, 0)];
    MadeValidator(x0, u2, 1);
    MadeValidator(x0, u2[1 := User(true, 0, 0)], 2);
    assert u2[1 := User(true, 0, 0)][2 := User(true, 0, 0)] == USERS;
    assert x0.(store := x0.store.(users := USERS)) == Scene(FRESH, NO_CALLS);
  }

  lemma UserAdded(x: System, users: map<UserId, User>, u: UserId)
    requires Reachable(x.(store := x.store.(users := users))) && u !in users
    ensures Reachable(x.(store := x.store.(users := users[u := User(false, 0, 0)])))
  {
    ReachableStep(x.(store := x.store.(users := users)), CreateUser(u));
  }

  lemma MadeValidator(x: System, users: map<UserId, User>, u: UserId)
    requires Reachable(x.(store := x.store.(users := users))) && u in users && users[u] == User(false, 0, 0)
    ensures Reachable(x.(store := x.store.(users := users[u := User(true, 0, 0)])))
  {
    ReachableStep(x.(store := x.store.(users := users)), SetRole(u, true));
  }

  /** A new call begins. */
  lemma Begins(proof: Proof, calls: map<nat, Call>, id: nat, c: Call)
    requires Reachable(Scene(proof, calls)) && id !in calls && Initial(c)
    ensures Reachable(Scene(proof, calls[id := c]))
  {
    ReachableStep(Scene(proof, calls), Begin(id, c));
    assert Apply(Scene(proof, calls), Begin(id, c)) == Scene(proof, calls[id := c]);
  }

  /** A step that credits no one: call `id` goes on, or returns. */
  lemma Moves(proof: Proof, calls: map<nat, Call>, id: nat, c: Call, o: Oracle, proof': Proof, next: Option<Call>)
    requires Reachable(Scene(proof, calls[id := c])) && id !in calls && !c.FinalizeWrite? && !c.NoQuorumWrite?
    requires var s := Scene(proof, calls).store;
             OracleOk(CFG, s, c, o) && !LeaksSlot(s, c)
             && Advance(CFG, s, c, o) == (s.(proofs := map[0 := proof']), next)
    ensures Reachable(Scene(proof', if next.Some? then calls[id := next.value] else calls))
  {
    var x := Scene(proof, calls[id := c]);
    ReachableStep(x, Step(id, o));
    assert next.Some? ==> x.calls[id := next.value] == calls[id := next.value];
    assert next.None? ==> x.calls - {id} == calls;
    assert Apply(x, Step(id, o)) == Scene(proof', if next.Some? then calls[id := next.value] else calls);
  }

  const TAKEN := FRESH.(status := VERIFYING)
  const BOTH: seq<UserId> := [1, 2]
  const UNCAST: Votes := map[1 := None, 2 := None]
  const ASSIGNED := TAKEN.(votes := UNCAST)

  lemma BothAreChosen()
    ensures LeastLoaded(USERS, 0, 2, BOTH)
  {
    assert Candidates(USERS, 0) == {1, 2};
  }

  lemma ProofSet(a: Proof, b: Proof)
    ensures (map[0 := a])[0 := b] == map[0 := b]
  {}

  /** The worker takes the proof up and finds it inconclusive. */
  lemma Inconclusives()
    ensures Reachable(Scene(TAKEN, NO_CALLS[0 := AssignRead(0)]))
  {
    ScenesReachable();
    Begins(FRESH, NO_CALLS, 0, WorkerStart(0, false));
    ProofSet(FRESH, TAKEN);
    Moves(FRESH, NO_CALLS, 0, WorkerStart(0, false), ANY, TAKEN, Some(WorkerLoad(0)));
    Moves(TAKEN, NO_CALLS, 0, WorkerLoad(0), ANY, TAKEN, Some(WorkerJudge(0, 0)));
    Moves(TAKEN, NO_CALLS, 0, WorkerJudge(0, 0), Oracle(AutoInconclusive, []), TAKEN, Some(AssignRead(0)));
  }

  /** The proof is assigned to both validators; the worker's job then dies. */
  lemma Assigns()
    ensures Reachable(Scene(ASSIGNED, NO_CALLS))
  {
    Inconclusives();
    Moves(TAKEN, NO_CALLS, 0, AssignRead(0), ANY, TAKEN, Some(AssignCount(0, 0)));
    Moves(TAKEN, NO_CALLS, 0, AssignCount(0, 0), ANY, TAKEN, Some(AssignPick(0, 0)));
    BothAreChosen();
    Moves(TAKEN, NO_CALLS, 0, AssignPick(0, 0), Oracle(AutoThrows, BOTH), TAKEN, Some(AssignInsert(0, 0, BOTH)));
    Inserts();
  }

  lemma UncastRows()
    ensures NO_VOTES + NewRows(BOTH) == UNCAST
  {
    assert BOTH[0] == 1 && BOTH[1] == 2;
    assert forall v :: v in BOTH <==> v == 1 || v == 2;
  }

  lemma RowsInserted(s: Store)
    requires s == Scene(TAKEN, NO_CALLS).store
    ensures AssignTx(s, 0, BOTH) == Commit(s.(proofs := map[0 := ASSIGNED]))
  {
    UncastRows();
    ProofSet(TAKEN, ASSIGNED);
    assert forall i :: 0 <= i < |BOTH| ==> BOTH[i] !in s.proofs[0].votes;
  }

  lemma Inserts()
    requires Reachable(Scene(TAKEN, NO_CALLS[0 := AssignInsert(0, 0, BOTH)]))
    ensures Reachable(Scene(ASSIGNED, NO_CALLS))
  {
    RowsInserted(Scene(TAKEN, NO_CALLS).store);
    Moves(TAKEN, NO_CALLS, 0, AssignInsert(0, 0, BOTH), ANY, ASSIGNED, Some(WorkerRecord(0)));
    Dies(ASSIGNED);
  }

  lemma Dies(proof: Proof)
    requires Reachable(Scene(proof, NO_CALLS[0 := WorkerRecord(0)]))
    ensures Reachable(Scene(proof, NO_CALLS))
  {
    var x := Scene(proof, NO_CALLS[0 := WorkerRecord(0)]);
    ReachableStep(x, Crash(0));
    assert x.calls - {0} == NO_CALLS;
    assert Apply(x, Crash(0)) == Scene(proof, NO_CALLS);
  }

  /** A validator's vote passes its check. */
  lemma Checks(proof: Proof, calls: map<nat, Call>, id: nat, v: UserId, choice: Choice)
    requires Reachable(Scene(proof, calls)) && id !in calls && Awaiting(proof.status)
    requires v in proof.votes && proof.votes[v].None?
    ensures Reachable(Scene(proof, calls[id := VoteWrite(0, v, choice)]))
  {
    Begins(proof, calls, id, VoteCheck(0, v, choice));
    Moves(proof, calls, id, VoteCheck(0, v, choice), ANY, proof, Some(VoteWrite(0, v, choice)));
  }

  /** It is written. */
  lemma Casts(proof: Proof, calls: map<nat, Call>, id: nat, v: UserId, choice: Choice)
    requires id !in calls && v in proof.votes
    requires Reachable(Scene(proof, calls[id := VoteWrite(0, v, choice)]))
    ensures Reachable(Scene(proof.(votes := proof.votes[v := Some(choice)]), calls[id := VoteSnapshot(0)]))
  {
    var voted := proof.(votes := proof.votes[v := Some(choice)]);
    ProofSet(proof, voted);
    Moves(proof, calls, id, VoteWrite(0, v, choice), ANY, voted, Some(VoteSnapshot(0)));
  }

  // ---- a ballot escalated twice ----

  const SPLIT_VOTES: Votes := map[1 := Some(Approve), 2 := Some(Reject)]
  const SPLIT := TAKEN.(votes := SPLIT_VOTES)
  const BALLOTS := [Ballot(1, Approve), Ballot(2, Reject)]
  const ESCALATES := NoQuorumWrite(0, BALLOTS)

  lemma SplitBallots()
    ensures Submitted(SPLIT_VOTES, BOTH) == BALLOTS && Lists(BOTH, SPLIT_VOTES.Keys)
    ensures Resolve(false, BALLOTS, 2, 2) == Escalate
  {
    assert BOTH[..1] == [1] && [1][..0] == [];
    assert Submitted(SPLIT_VOTES, [1]) == [Ballot(1, Approve)];
    assert BALLOTS[..1] == [Ballot(1, Approve)] && [Ballot(1, Approve)][..0] == [];
    assert Count([Ballot(1, Approve)], Approve) == 1 && Count([Ballot(1, Approve)], Reject) == 0;
  }

  /** Both validators have voted, against each other, before either has read the votes. */
  lemma BothVote()
    ensures Reachable(Scene(SPLIT, NO_CALLS[1 := VoteSnapshot(0)][2 := VoteSnapshot(0)]))
  {
    var first := UNCAST[1 := Some(Approve)];
    var half := TAKEN.(votes := first);
    Assigns();
    Checks(ASSIGNED, NO_CALLS, 1, 1, Approve);
    Casts(ASSIGNED, NO_CALLS, 1, 1, Approve);
    Checks(half, NO_CALLS[1 := VoteSnapshot(0)], 2, 2, Reject);
    Casts(half, NO_CALLS[1 := VoteSnapshot(0)], 2, 2, Reject);
    assert first[2 := Some(Reject)] == SPLIT_VOTES;
  }

  lemma SnapshotsEscalate(calls: map<nat, Call>, id: nat)
    requires id !in calls && Reachable(Scene(SPLIT, calls[id := VoteSnapshot(0)]))
    ensures Reachable(Scene(SPLIT, calls[id := ESCALATES]))
  {
    SplitBallots();
    Moves(SPLIT, calls, id, VoteSnapshot(0), Oracle(AutoThrows, BOTH), SPLIT, Some(ESCALATES));
  }

  /** Both find a full ballot without a quorum. */
  lemma BothEscalate()
    ensures Reachable(Scene(SPLIT, NO_CALLS[1 := ESCALATES][2 := ESCALATES]))
  {
    BothVote();
    SnapshotsEscalate(NO_CALLS[1 := VoteSnapshot(0)], 2);
    var second := NO_CALLS[2 := ESCALATES];
    assert NO_CALLS[1 := VoteSnapshot(0)][2 := ESCALATES] == second[1 := VoteSnapshot(0)];
    SnapshotsEscalate(second, 1);
    assert NO_CALLS[1 := ESCALATES][2 := ESCALATES] == second[1 := ESCALATES];
  }

  lemma BothAreVoters()
    ensures 1 in Voters(BALLOTS) && 2 in Voters(BALLOTS)
  {
    assert BALLOTS[0].validator == 1 && BALLOTS[1].validator == 2;
  }

  /** How far the two voters' ballot has been escalated, and what they were credited with. */
  ghost predicate Escalated(x: System, n: nat) {
    && Reachable(x) && 0 in x.store.proofs && 1 in x.store.users && 2 in x.store.users
    && Escalations(x.store.proofs[0].verifications) == n
    && x.store.users[1].reviewCount == n && x.store.users[2].reviewCount == n
  }

  ghost predicate Pends(x: System, id: nat) {
    id in x.calls && x.calls[id] == ESCALATES
  }

  lemma OthersPend(x: System, id: nat, other: nat)
    requires id in x.calls && id != other && Pends(x, other)
    ensures Pends(Apply(x, Step(id, ANY)), other)
  {}

  /** One escalation is written: one more row, one more review for each voter. */
  lemma OneEscalates(x: System, id: nat, n: nat)
    requires Escalated(x, n) && Pends(x, id)
    ensures Escalated(Apply(x, Step(id, ANY)), n + 1)
  {
    var e := Step(id, ANY);
    assert Enabled(x, e);
    ReachableStep(x, e);
    EscalationRepeats(x, e, ESCALATES);
    EscalationAdds(x, e, 0);
    BothAreVoters();
  }

  /** Two last voters who race escalate one ballot twice, and each is credited with two reviews for one vote. */
  lemma BallotEscalatedTwice()
    ensures exists y: System ::
              && Reachable(y) && 0 in y.store.proofs && 1 in y.store.users && 2 in y.store.users
              && Escalations(y.store.proofs[0].verifications) == 2
              && y.store.users[1].reviewCount == 2 && y.store.users[2].reviewCount == 2
  {
    BothEscalate();
    var x := Scene(SPLIT, NO_CALLS[1 := ESCALATES][2 := ESCALATES]);
    assert Escalated(x, 0) && Pends(x, 1) && Pends(x, 2);
    OneEscalates(x, 1, 0);
    OthersPend(x, 1, 2);
    var x1 := Apply(x, Step(1, ANY));
    OneEscalates(x1, 2, 1);
    var y := Apply(x1, Step(2, ANY));
    assert Escalated(y, 2);
  }

  // ---- a vote changed after the decision ----

  const FIRST := TAKEN.(votes := UNCAST[1 := Some(Approve)])
  const LATE := VoteWrite(0, 1, Reject)

  /** One validator's two votes have both passed the check when the first is written. */
  lemma OneOfTwoWritten()
    ensures Reachable(Scene(FIRST, NO_CALLS[1 := VoteSnapshot(0)][2 := LATE]))
  {
    var second := NO_CALLS[2 := LATE];
    Assigns();
    Checks(ASSIGNED, NO_CALLS, 2, 1, Reject);
    Checks(ASSIGNED, second, 1, 1, Approve);
    Casts(ASSIGNED, second, 1, 1, Approve);
    assert second[1 := VoteSnapshot(0)] == NO_CALLS[1 := VoteSnapshot(0)][2 := LATE];
  }

  const REJECTED_BY_ADMIN := FIRST.(
    status := REJECTED, verifications := [Verification(Admin(7), Rejected, Plain)], notified := [false])

  lemma RejectedMeanwhile()
    ensures Reachable(Scene(REJECTED_BY_ADMIN, NO_CALLS[1 := VoteSnapshot(0)][2 := LATE]))
  {
    var calls := NO_CALLS[1 := VoteSnapshot(0)][2 := LATE];
    OneOfTwoWritten();
    Begins(FIRST, calls, 3, ReviewLoad(0, 7, Reject));
    Moves(FIRST, calls, 3, ReviewLoad(0, 7, Reject), ANY, FIRST, Some(ReviewWrite(0, 0, 7, Reject)));
    AdminRejects(calls);
  }

  lemma LateVoteWritten(x: System)
    requires x == Scene(REJECTED_BY_ADMIN, NO_CALLS[1 := VoteSnapshot(0)][2 := LATE])
    ensures Enabled(x, Step(2, ANY)) && 0 in Apply(x, Step(2, ANY)).store.proofs
    ensures Apply(x, Step(2, ANY)).store.proofs[0].votes == x.store.proofs[0].votes[1 := Some(Reject)]
  {
    assert x.calls[2] == LATE && 1 in x.store.proofs[0].votes;
  }

  /** An admin rejects the proof; then the second vote is written over the first. */
  lemma VoteChangedAfterDecision()
    ensures exists x: System, e ::
              && Reachable(x) && Enabled(x, e) && 0 in x.store.proofs && Decided(x.store.proofs[0].status)
              && 1 in x.store.proofs[0].votes && x.store.proofs[0].votes[1] == Some(Approve)
              && 0 in Apply(x, e).store.proofs && 1 in Apply(x, e).store.proofs[0].votes
              && Apply(x, e).store.proofs[0].votes[1] == Some(Reject)
  {
    RejectedMeanwhile();
    LateVoteWritten(Scene(REJECTED_BY_ADMIN, NO_CALLS[1 := VoteSnapshot(0)][2 := LATE]));
  }

  lemma AdminRejects(calls: map<nat, Call>)
    requires 3 !in calls && Reachable(Scene(FIRST, calls[3 := ReviewWrite(0, 0, 7, Reject)]))
    ensures Reachable(Scene(REJECTED_BY_ADMIN, calls))
  {
    var s := Scene(FIRST, calls).store;
    assert WithVerdict(FIRST, false, VerdictRow(s, 0, Admin(7), Reject)) == REJECTED_BY_ADMIN;
    ProofSet(FIRST, REJECTED_BY_ADMIN);
    Moves(FIRST, calls, 3, ReviewWrite(0, 0, 7, Reject), ANY, REJECTED_BY_ADMIN, None);
  }
}
