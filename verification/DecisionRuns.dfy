/** What the decisions of worker, quorum and admin come to in every run, whatever other calls do in between. */
module DecisionRuns {
  import opened Common
  import opened Tally
  import opened Store
  import opened Protocol
  import opened ProtocolSafety
  import opened ProtocolTheorems
  import opened Decisions

  function Asked(c: Call): Choice
    requires Decides(c)
  {
    if c.FinalizeWrite? then c.winner else c.choice
  }

  function Judge(c: Call): Verifier
    requires Decides(c)
  {
    if c.WorkerDecide? then Auto else if c.FinalizeWrite? then Quorum else Admin(c.admin)
  }

  /** Every deciding step on an undecided proof decides it as it was asked to, but for the capacity of the task. */
  lemma DecisionOutcome(x: System, e: Event, c: Call)
    requires Reachable(x) && Enabled(x, e) && e.Step? && x.calls[e.id] == c && Decides(c)
    requires c.proof in x.store.proofs && Awaiting(x.store.proofs[c.proof].status)
    ensures DecidesAs(x.store, Apply(x, e).store, c.proof, Judge(c), Asked(c))
  {
    CallsFit(x, e.id);
    match c
    case WorkerDecide(p, t, w) => WorkerVerdictWritten(x.store, p, w);
    case ReviewWrite(p, t, admin, w) => ReviewWritten(x.store, p, t, admin, w);
    case FinalizeWrite(p, t, w, submitted) => FinalizationWritten(x.store, p, t, w, submitted);
  }

  lemma ApprovalPays(s: Store, s': Store, p: ProofId, judge: Verifier)
    requires Approves(s, s', p, judge)
    ensures PayoutRows(s'.proofs, s.proofs[p].task) == PayoutRows(s.proofs, s.proofs[p].task) + {p}
  {}

  lemma RejectionPaysNoOne(s: Store, s': Store, p: ProofId, judge: Verifier, asked: Choice)
    requires Rejects(s, s', p, judge, asked)
    ensures forall t :: PayoutRows(s'.proofs, t) == PayoutRows(s.proofs, t)
  {}

  /**
   * Whoever decides an undecided proof: it is approved, with its payout row, its notification and one completion
   * more, if and only if approval was asked for and the task is ACTIVE and below its maximum. Otherwise it is
   * rejected, and no task and no payout row changes.
   */
  lemma ApprovedIff(x: System, e: Event, c: Call)
    requires Reachable(x) && Enabled(x, e) && e.Step? && x.calls[e.id] == c && Decides(c)
    requires c.proof in x.store.proofs && Awaiting(x.store.proofs[c.proof].status)
    ensures var s, s', p := x.store, Apply(x, e).store, c.proof; var t := s.proofs[p].task;
            && t in s.tasks && t in s'.tasks && p in s'.proofs
            && (s'.proofs[p].status == APPROVED <==>
                  && Asked(c) == Approve && s.tasks[t].status == ACTIVE
                  && (s.tasks[t].maxCompletions == None
                      || s.tasks[t].completedCount < s.tasks[t].maxCompletions.value))
            && if s'.proofs[p].status == APPROVED then
                 && s'.proofs[p].hasPayout && s'.proofs[p].notified == [true]
                 && s'.tasks[t].completedCount == s.tasks[t].completedCount + 1
                 && PayoutRows(s'.proofs, t) == PayoutRows(s.proofs, t) + {p}
               else
                 && s'.proofs[p].status == REJECTED && s'.proofs[p].notified == [false]
                 && s'.tasks == s.tasks
                 && PayoutRows(s'.proofs, t) == PayoutRows(s.proofs, t)
  {
    var s, s', p := x.store, Apply(x, e).store, c.proof;
    UndecidedUnpaid(x, p);
    DecisionOutcome(x, e, c);
    if Asked(c) == Approve && HasRoom(s.tasks[s.proofs[p].task]) {
      ApprovalPays(s, s', p, Judge(c));
    } else {
      RejectionPaysNoOne(s, s', p, Judge(c), Asked(c));
    }
  }

  lemma UndecidedUnpaid(x: System, p: ProofId)
    requires Reachable(x) && p in x.store.proofs && Awaiting(x.store.proofs[p].status)
    ensures !x.store.proofs[p].hasPayout && x.store.proofs[p].notified == [] && x.store.proofs[p].task in x.store.tasks
  {
    ReachableInv(x);
    assert ProofOk(x.store.proofs[p]);
    PayoutMatchesStatus(x.store.proofs[p]);
  }

  // ---- completed counts ----

  /** A step that commits a slot: an approval with room, unless the worker's transaction is rolled back. */
  predicate CommitsSlot(s: Store, c: Call, t: TaskId) {
    && Decides(c) && Asked(c) == Approve && c.task == t
    && t in s.tasks && s.tasks[t].status == ACTIVE
    && (s.tasks[t].maxCompletions == None || s.tasks[t].completedCount < s.tasks[t].maxCompletions.value)
    && (c.WorkerDecide? ==> c.proof in s.proofs && !s.proofs[c.proof].hasPayout)
  }

  ghost predicate Counts(s: Store, s': Store, t: TaskId, committed: bool) {
    && t in s.tasks && t in s'.tasks
    && if committed then OneMore(s.tasks[t], s'.tasks[t]) else s'.tasks[t] == s.tasks[t]
  }

  lemma VerdictCounts(s: Store, s': Store, p: ProofId, judge: Verifier, asked: Choice, t: TaskId)
    requires DecidesAs(s, s', p, judge, asked) && t in s.tasks
    ensures Counts(s, s', t, asked == Approve && s.proofs[p].task == t && HasRoom(s.tasks[t]))
  {}

  lemma LateCounts(s: Store, s': Store, asked: Choice, claimed: TaskId, t: TaskId)
    requires KeepsSlot(s, s', claimed, asked) && t in s.tasks
    ensures Counts(s, s', t, asked == Approve && claimed == t && HasRoom(s.tasks[t]))
  {}

  /** The call's proof, if it is there, is of the call's task. */
  ghost predicate CallFits(s: Store, c: Call)
    requires Decides(c)
  {
    && (c.proof in s.proofs ==> s.proofs[c.proof].task == c.task && c.task in s.tasks)
    && (c.proof in s.proofs && Awaiting(s.proofs[c.proof].status) ==> !s.proofs[c.proof].hasPayout)
    && (c.FinalizeWrite? ==> Reward(s.users, c.submitted, c.winner).Some?)
  }

  lemma WorkerCounts(cfg: Config, s: Store, c: Call, o: Oracle, t: TaskId)
    requires c.WorkerDecide? && CallFits(s, c) && t in s.tasks
    ensures Counts(s, Advance(cfg, s, c, o).0, t, CommitsSlot(s, c, t))
  {
    if c.proof in s.proofs {
      WorkerVerdictWritten(s, c.proof, c.choice);
      if !PaysTwice(s, c.proof, c.choice) {
        VerdictCounts(s, Advance(cfg, s, c, o).0, c.proof, Auto, c.choice, t);
      }
    }
  }

  lemma GuardedCounts(cfg: Config, s: Store, c: Call, o: Oracle, t: TaskId)
    requires (c.ReviewWrite? || c.FinalizeWrite?) && CallFits(s, c) && t in s.tasks
    ensures Counts(s, Advance(cfg, s, c, o).0, t, CommitsSlot(s, c, t))
  {
    var s' := Advance(cfg, s, c, o).0;
    if c.ReviewWrite? {
      ReviewWritten(s, c.proof, c.task, c.admin, c.choice);
    } else {
      FinalizationWritten(s, c.proof, c.task, c.winner, c.submitted);
    }
    if c.proof in s.proofs && Awaiting(s.proofs[c.proof].status) {
      VerdictCounts(s, s', c.proof, Judge(c), Asked(c), t);
    } else {
      LateCounts(s, s', Asked(c), c.task, t);
    }
  }

  lemma CallsFit(x: System, id: nat)
    requires Reachable(x) && id in x.calls && Decides(x.calls[id])
    ensures CallFits(x.store, x.calls[id])
  {
    var s, c := x.store, x.calls[id];
    CallOfTask(x, id);
    if c.proof in s.proofs && Awaiting(s.proofs[c.proof].status) { UndecidedUnpaid(x, c.proof); }
    if c.FinalizeWrite? { VotersCredited(s, c); }
  }

  lemma CallOfTask(x: System, id: nat)
    requires Reachable(x) && id in x.calls && Decides(x.calls[id])
    ensures var s, c := x.store, x.calls[id];
            && (c.proof in s.proofs ==> s.proofs[c.proof].task == c.task && c.task in s.tasks)
            && (c.FinalizeWrite? ==> BallotsOk(s, c.submitted))
  {
    ReachableInv(x);
    assert CallOk(x.store, x.issued, x.calls[id]);
  }

  lemma VotersCredited(s: Store, c: Call)
    requires c.FinalizeWrite? && BallotsOk(s, c.submitted)
    ensures Reward(s.users, c.submitted, c.winner).Some?
  {
    RewardPointwise(s.users, c.submitted, c.winner);
  }

  lemma OthersCountNothing(x: System, e: Event, t: TaskId)
    requires Enabled(x, e) && t in x.store.tasks && !(e.Step? && Decides(x.calls[e.id]))
    ensures t in Apply(x, e).store.tasks
    ensures Apply(x, e).store.tasks[t].completedCount == x.store.tasks[t].completedCount
  {
    if e.Step? { OtherStepTouches(x.cfg, x.store, x.calls[e.id], e.oracle); }
  }

  /**
   * Capacity, also for tasks that an edit left at or above their maximum: an event changes a completed count if and
   * only if it commits a slot of a task that was ACTIVE and had its maximum, if any, above the count; it then adds
   * one, and completes the task exactly at the maximum.
   */
  lemma CountRisesOnlyWithRoom(x: System, e: Event, t: TaskId)
    requires Reachable(x) && Enabled(x, e) && t in x.store.tasks
    ensures t in Apply(x, e).store.tasks
    ensures var a, b := x.store.tasks[t], Apply(x, e).store.tasks[t];
            && (b.completedCount != a.completedCount <==> e.Step? && CommitsSlot(x.store, x.calls[e.id], t))
            && (b.completedCount != a.completedCount ==>
                  && a.status == ACTIVE
                  && (a.maxCompletions == None || a.completedCount < a.maxCompletions.value)
                  && b.completedCount == a.completedCount + 1
                  && b.maxCompletions == a.maxCompletions
                  && b.status == (if b.maxCompletions == Some(b.completedCount) then COMPLETED else ACTIVE))
  {
    if e.Step? && Decides(x.calls[e.id]) {
      CallsFit(x, e.id);
      if x.calls[e.id].WorkerDecide? {
        WorkerCounts(x.cfg, x.store, x.calls[e.id], e.oracle, t);
      } else {
        GuardedCounts(x.cfg, x.store, x.calls[e.id], e.oracle, t);
      }
    } else {
      OthersCountNothing(x, e, t);
    }
  }

  // ---- from the first read of a call to its last write ----

  /** The run moves and stops other calls only. */
  ghost predicate Leaves(es: seq<Event>, id: nat) {
    forall i :: 0 <= i < |es| ==> !((es[i].Step? || es[i].Crash?) && es[i].id == id)
  }

  lemma {:induction false} CallWaits(x: System, es: seq<Event>, y: System, id: nat)
    requires Reachable(x) && Runs(x, es, y) && Leaves(es, id) && id in x.calls
    ensures Reachable(y) && id in y.calls && y.calls[id] == x.calls[id]
    decreases es
  {
    if es != [] {
      assert !((es[0].Step? || es[0].Crash?) && es[0].id == id);
      ReachableStep(x, es[0]);
      forall i | 0 <= i < |es[1..]|
        ensures es[1..][i] == es[i + 1]
      {}
      CallWaits(Apply(x, es[0]), es[1..], y, id);
    }
  }

  /**
   * autoVerify's verdict is what the worker's transaction later asks for, whatever happens in between; a verdict
   * of inconclusive goes to assignment, and an exception ends the job.
   */
  lemma WorkerDecidesAsJudged(x: System, id: nat, o: Oracle, es: seq<Event>, y: System, o': Oracle)
    requires Reachable(x) && id in x.calls && x.calls[id].WorkerJudge?
    requires Enabled(x, Step(id, o)) && Runs(Apply(x, Step(id, o)), es, y) && Leaves(es, id)
    ensures Apply(x, Step(id, o)).store == x.store
    ensures o.verdict == AutoThrows ==> id !in Apply(x, Step(id, o)).calls
    ensures o.verdict == AutoInconclusive ==> id in y.calls && y.calls[id] == AssignRead(x.calls[id].proof)
    ensures o.verdict == AutoApproved || o.verdict == AutoRejected ==>
              var p := x.calls[id].proof;
              && Enabled(y, Step(id, o'))
              && (p in y.store.proofs && Awaiting(y.store.proofs[p].status) ==>
                    DecidesAs(y.store, Apply(y, Step(id, o')).store, p, Auto,
                              if o.verdict == AutoApproved then Approve else Reject))
  {
    ReachableStep(x, Step(id, o));
    if o.verdict != AutoThrows {
      CallWaits(Apply(x, Step(id, o)), es, y, id);
      if o.verdict != AutoInconclusive && x.calls[id].proof in y.store.proofs
         && Awaiting(y.store.proofs[x.calls[id].proof].status) {
        DecisionOutcome(y, Step(id, o'), y.calls[id]);
      }
    }
  }

  /** What an admin's write comes to: the verdict, or a late write that keeps the slot it claimed. */
  ghost predicate Reviews(s: Store, s': Store, p: ProofId, t: TaskId, admin: UserId, asked: Choice) {
    if p in s.proofs && Awaiting(s.proofs[p].status) then DecidesAs(s, s', p, Admin(admin), asked)
    else KeepsSlot(s, s', t, asked)
  }

  lemma ReviewOutcome(y: System, id: nat, o: Oracle)
    requires Reachable(y) && id in y.calls && y.calls[id].ReviewWrite?
    ensures var c := y.calls[id]; Reviews(y.store, Apply(y, Step(id, o)).store, c.proof, c.task, c.admin, c.choice)
  {
    var c := y.calls[id];
    CallsFit(y, id);
    ReviewWritten(y.store, c.proof, c.task, c.admin, c.choice);
  }

  /** An admin's review decides as the admin asked, if the proof is undecided at both the read and the write. */
  lemma ReviewDecidesAsAsked(x: System, id: nat, o: Oracle, es: seq<Event>, y: System, o': Oracle)
    requires Reachable(x) && id in x.calls && x.calls[id].ReviewLoad?
    requires Enabled(x, Step(id, o)) && Runs(Apply(x, Step(id, o)), es, y) && Leaves(es, id)
    ensures Apply(x, Step(id, o)).store == x.store
    ensures var c := x.calls[id]; var p := c.proof;
            if p in x.store.proofs && Awaiting(x.store.proofs[p].status) then
              && Enabled(y, Step(id, o'))
              && Reviews(y.store, Apply(y, Step(id, o')).store, p, x.store.proofs[p].task, c.admin, c.choice)
            else id !in Apply(x, Step(id, o)).calls
  {
    var p := x.calls[id].proof;
    if p in x.store.proofs && Awaiting(x.store.proofs[p].status) {
      ReachableStep(x, Step(id, o));
      CallWaits(Apply(x, Step(id, o)), es, y, id);
      ReviewOutcome(y, id, o');
    }
  }

  /** A validator's choice is what is recorded, and nothing else changes then. */
  lemma VoteRecordedAsCast(x: System, id: nat, o: Oracle, es: seq<Event>, y: System, o': Oracle)
    requires Reachable(x) && id in x.calls && x.calls[id].VoteCheck?
    requires Enabled(x, Step(id, o)) && Runs(Apply(x, Step(id, o)), es, y) && Leaves(es, id)
    ensures Apply(x, Step(id, o)).store == x.store
    ensures var p, v, choice := x.calls[id].proof, x.calls[id].validator, x.calls[id].choice;
            if p in x.store.proofs && v in x.store.proofs[p].votes && x.store.proofs[p].votes[v] == None
               && Awaiting(x.store.proofs[p].status) then
              && Enabled(y, Step(id, o'))
              && if p in y.store.proofs && v in y.store.proofs[p].votes
                 then Apply(y, Step(id, o')).store == Voted(y.store, p, v, choice)
                 else Apply(y, Step(id, o')).store == y.store && id !in Apply(y, Step(id, o')).calls
            else id !in Apply(x, Step(id, o)).calls
  {
    var p, v := x.calls[id].proof, x.calls[id].validator;
    ReachableStep(x, Step(id, o));
    if p in x.store.proofs && v in x.store.proofs[p].votes && x.store.proofs[p].votes[v].None?
       && Awaiting(x.store.proofs[p].status) {
      CallWaits(Apply(x, Step(id, o)), es, y, id);
    }
  }

  // ---- from the snapshot of the votes to the verdict ----

  /** What a voter's call does with the snapshot it takes. */
  lemma SnapshotResolves(x: System, id: nat, o: Oracle)
    requires Reachable(x) && Enabled(x, Step(id, o)) && x.calls[id].VoteSnapshot?
    requires x.calls[id].proof in x.store.proofs && Awaiting(x.store.proofs[x.calls[id].proof].status)
    ensures Apply(x, Step(id, o)).store == x.store
    ensures var p := x.calls[id].proof;
            var votes, calls := x.store.proofs[p].votes, Apply(x, Step(id, o)).calls;
            if HoldsQuorum(votes, x.cfg.quorumRequired) then
              && id in calls && calls[id].FinalizeRead? && calls[id].proof == p
              && Reaches(votes, calls[id].winner, x.cfg.quorumRequired)
              && calls[id].submitted == Submitted(votes, o.rows)
            else if votes.Keys != {} && AllCast(votes) then
              id in calls && calls[id] == NoQuorumWrite(p, Submitted(votes, o.rows))
            else id !in calls
  {
    ResolveOutcome(x.store.proofs[x.calls[id].proof].votes, o.rows, x.cfg.quorumRequired);
  }

  lemma ReadGoesOn(x: System, id: nat, o: Oracle)
    requires id in x.calls && x.calls[id].FinalizeRead?
    requires x.calls[id].proof in x.store.proofs && Awaiting(x.store.proofs[x.calls[id].proof].status)
    ensures var c := x.calls[id]; var y := Apply(x, Step(id, o));
            && y.store == x.store && id in y.calls
            && y.calls[id] == FinalizeWrite(c.proof, x.store.proofs[c.proof].task, c.winner, c.submitted)
  {}

  /**
   * A snapshot that holds a quorum decides the proof, if it is still undecided at the read and the write that
   * follow: as the choice says that had the quorum, and with credits by the votes of that snapshot.
   */
  lemma QuorumDecides(x: System, id: nat, o: Oracle, es: seq<Event>, y: System, o': Oracle, fs: seq<Event>, z: System,
                      o'': Oracle)
    requires Reachable(x) && Enabled(x, Step(id, o)) && x.calls[id].VoteSnapshot?
    requires Runs(Apply(x, Step(id, o)), es, y) && Leaves(es, id)
    requires id in y.calls && Runs(Apply(y, Step(id, o')), fs, z) && Leaves(fs, id)
    requires var p := x.calls[id].proof;
             && p in x.store.proofs && Awaiting(x.store.proofs[p].status)
             && p in y.store.proofs && Awaiting(y.store.proofs[p].status)
             && p in z.store.proofs && Awaiting(z.store.proofs[p].status)
             && HoldsQuorum(x.store.proofs[p].votes, x.cfg.quorumRequired)
    ensures Enabled(z, Step(id, o''))
    ensures var p := x.calls[id].proof;
            exists w ::
              && Reaches(x.store.proofs[p].votes, w, x.cfg.quorumRequired)
              && DecidesAs(z.store, Apply(z, Step(id, o'')).store, p, Quorum, w)
              && CreditsVoters(z.store.users, Apply(z, Step(id, o'')).store.users, x.store.proofs[p].votes, w)
  {
    var p := x.calls[id].proof;
    var votes := x.store.proofs[p].votes;
    SnapshotResolves(x, id, o);
    ReachableStep(x, Step(id, o));
    CallWaits(Apply(x, Step(id, o)), es, y, id);
    ReadGoesOn(y, id, o');
    ReachableStep(y, Step(id, o'));
    CallWaits(Apply(y, Step(id, o')), fs, z, id);
    var c := z.calls[id];
    DecisionOutcome(z, Step(id, o''), c);
    SnapshotCredits(z, id, o'', votes, o.rows);
  }

  lemma SnapshotCredits(z: System, id: nat, o: Oracle, votes: Votes, order: seq<UserId>)
    requires Reachable(z) && id in z.calls && z.calls[id].FinalizeWrite?
    requires z.calls[id].proof in z.store.proofs && Awaiting(z.store.proofs[z.calls[id].proof].status)
    requires Lists(order, votes.Keys) && z.calls[id].submitted == Submitted(votes, order)
    ensures CreditsVoters(z.store.users, Apply(z, Step(id, o)).store.users, votes, z.calls[id].winner)
  {
    var c := z.calls[id];
    CallsFit(z, id);
    UndecidedUnpaid(z, c.proof);
    FinalizationWritten(z.store, c.proof, c.task, c.winner, c.submitted);
    SnapshotBallots(votes, order);
    RewardPointwise(z.store.users, c.submitted, c.winner);
    RewardCredits(z.store.users, votes, order, c.winner);
  }

  // ---- the worker's job with nothing else in between ----

  /** The store after up to `n` steps of a call alone. */
  function Alone(cfg: Config, s: Store, c: Call, o: Oracle, n: nat): Store
    decreases n
  {
    if n == 0 then s
    else
      var (s', next) := Advance(cfg, s, c, o);
      if next.None? then s' else Alone(cfg, s', next.value, o, n - 1)
  }

  lemma {:induction false} DecideAlone(cfg: Config, s: Store, p: ProofId, asked: Choice, o: Oracle, n: nat)
    requires n > 0 && p in s.proofs && s.proofs[p].task in s.tasks
    ensures var s' := Alone(cfg, s, WorkerDecide(p, s.proofs[p].task, asked), o, n);
            && s'.users == s.users
            && if PaysTwice(s, p, asked) then s' == s else DecidesAs(s, s', p, Auto, asked)
  {
    WorkerVerdictWritten(s, p, asked);
  }

  lemma {:induction false} RecordAlone(cfg: Config, s: Store, p: ProofId, o: Oracle, n: nat)
    requires n > 0 && p in s.proofs
    ensures Alone(cfg, s, WorkerRecord(p), o, n)
            == s.(proofs := s.proofs[p := s.proofs[p].(verifications := s.proofs[p].verifications
                                                                         + [Verification(Auto, Inconclusive, Plain)])])
  {}

  lemma {:induction false} InsertAlone(cfg: Config, s: Store, p: ProofId, o: Oracle, n: nat)
    requires n > 1 && p in s.proofs && s.proofs[p].votes == map[] && o.rows != []
    ensures var s' := Alone(cfg, s, AssignInsert(p, s.proofs[p].submitter, o.rows), o, n);
            s' == s.(proofs := s'.proofs) && Referred(s.proofs, s'.proofs, p, o.rows)
  {
    var r := AssignTx(s, p, o.rows);
    RowsAssigned(s, p, o.rows);
    RecordAlone(cfg, r.store, p, o, n - 1);
    assert Alone(cfg, s, AssignInsert(p, s.proofs[p].submitter, o.rows), o, n)
           == Alone(cfg, r.store, WorkerRecord(p), o, n - 1);
  }

  lemma RowsAssigned(s: Store, p: ProofId, chosen: seq<UserId>)
    requires p in s.proofs && s.proofs[p].votes == map[]
    ensures var r := AssignTx(s, p, chosen);
            r.Commit? && r.store == s.(proofs := r.store.proofs) && Assigned(s.proofs, r.store.proofs, p, chosen)
  {
    assert forall i :: 0 <= i < |chosen| ==> chosen[i] !in s.proofs[p].votes;
  }

  lemma {:induction false} PickAlone(cfg: Config, s: Store, p: ProofId, o: Oracle, n: nat)
    requires n > 2 && p in s.proofs && s.proofs[p].status == VERIFYING && s.proofs[p].votes == map[]
    ensures var s' := Alone(cfg, s, AssignPick(p, s.proofs[p].submitter), o, n);
            s' == s.(proofs := s'.proofs) && Referred(s.proofs, s'.proofs, p, o.rows)
  {
    var u := s.proofs[p].submitter;
    if o.rows == [] {
      assert Alone(cfg, s, AssignPick(p, u), o, n) == Alone(cfg, s, WorkerEscalate(p), o, n - 1);
    } else {
      assert Alone(cfg, s, AssignPick(p, u), o, n) == Alone(cfg, s, AssignInsert(p, u, o.rows), o, n - 1);
      InsertAlone(cfg, s, p, o, n - 1);
    }
  }

  lemma {:induction false} AssignAlone(cfg: Config, s: Store, p: ProofId, o: Oracle, n: nat)
    requires n > 4 && p in s.proofs && s.proofs[p].status == VERIFYING
    ensures var s' := Alone(cfg, s, AssignRead(p), o, n);
            && s' == s.(proofs := s'.proofs)
            && Referred(s.proofs, s'.proofs, p, if s.proofs[p].votes == map[] then o.rows else [])
  {
    var u := s.proofs[p].submitter;
    assert Alone(cfg, s, AssignRead(p), o, n) == Alone(cfg, s, AssignCount(p, u), o, n - 1);
    if s.proofs[p].votes == map[] {
      assert Alone(cfg, s, AssignCount(p, u), o, n - 1) == Alone(cfg, s, AssignPick(p, u), o, n - 2);
      PickAlone(cfg, s, p, o, n - 2);
    } else {
      assert |s.proofs[p].votes| > 0;
      assert Alone(cfg, s, AssignCount(p, u), o, n - 1) == Alone(cfg, s, WorkerRecord(p), o, n - 2);
      RecordAlone(cfg, s, p, o, n - 2);
    }
  }

  lemma {:induction false} LoadAlone(cfg: Config, s: Store, p: ProofId, o: Oracle, n: nat)
    requires n > 2 && p in s.proofs
    ensures Alone(cfg, s, WorkerLoad(p), o, n)
            == match o.verdict
               case AutoApproved => Alone(cfg, s, WorkerDecide(p, s.proofs[p].task, Approve), o, n - 2)
               case AutoRejected => Alone(cfg, s, WorkerDecide(p, s.proofs[p].task, Reject), o, n - 2)
               case AutoInconclusive => Alone(cfg, s, AssignRead(p), o, n - 2)
               case AutoThrows => s
  {
    assert Alone(cfg, s, WorkerLoad(p), o, n) == Alone(cfg, s, WorkerJudge(p, s.proofs[p].task), o, n - 1);
  }

  lemma {:induction false} StartAlone(cfg: Config, s: Store, p: ProofId, retry: bool, o: Oracle, n: nat)
    requires n > 2 && p in s.proofs && TakenUp(s.proofs, p, retry)
    ensures exists m :: n - 2 <= m < n
              && Alone(cfg, s, WorkerStart(p, retry), o, n) == Alone(cfg, Taken(s, p), WorkerLoad(p), o, m)
  {
    if s.proofs[p].status.PENDING? {
      assert Alone(cfg, s, WorkerStart(p, retry), o, n) == Alone(cfg, Taken(s, p), WorkerLoad(p), o, n - 1);
    } else {
      assert s.proofs[p := s.proofs[p].(status := VERIFYING)] == s.proofs;
      assert Taken(s, p) == s;
      assert Alone(cfg, s, WorkerStart(p, retry), o, n) == Alone(cfg, s, WorkerResume(p, retry), o, n - 1);
      assert Alone(cfg, s, WorkerResume(p, retry), o, n - 1) == Alone(cfg, s, WorkerLoad(p), o, n - 2);
    }
  }

  /**
   * The job from its first step to its last, alone: the proof is taken up if it is PENDING, or VERIFYING on a retry.
   * It is then decided as autoVerify says, or referred to validators, or left VERIFYING by an exception.
   */
  lemma WorkerAlone(cfg: Config, s: Store, p: ProofId, retry: bool, o: Oracle, n: nat)
    requires n > 9 && (p in s.proofs ==> s.proofs[p].task in s.tasks)
    ensures var s' := Alone(cfg, s, WorkerStart(p, retry), o, n);
            if !TakenUp(s.proofs, p, retry) then s' == s
            else
              match o.verdict
              case AutoThrows => s' == Taken(s, p)
              case AutoInconclusive =>
                && s' == s.(proofs := s'.proofs)
                && Referred(Taken(s, p).proofs, s'.proofs, p, if s.proofs[p].votes == map[] then o.rows else [])
              case _ =>
                var asked := if o.verdict == AutoApproved then Approve else Reject;
                && s'.users == s.users
                && if PaysTwice(s, p, asked) then s' == Taken(s, p) else DecidesAs(Taken(s, p), s', p, Auto, asked)
  {
    if TakenUp(s.proofs, p, retry) {
      StartAlone(cfg, s, p, retry, o, n);
      var m :| n - 2 <= m < n
               && Alone(cfg, s, WorkerStart(p, retry), o, n) == Alone(cfg, Taken(s, p), WorkerLoad(p), o, m);
      LoadAlone(cfg, Taken(s, p), p, o, m);
      match o.verdict
      case AutoThrows =>
      case AutoInconclusive => AssignAlone(cfg, Taken(s, p), p, o, m - 2);
      case AutoApproved => DecideAlone(cfg, Taken(s, p), p, Approve, o, m - 2);
      case AutoRejected => DecideAlone(cfg, Taken(s, p), p, Reject, o, m - 2);
    } else {
      assert Alone(cfg, s, WorkerStart(p, retry), o, n) == Alone(cfg, s, WorkerResume(p, retry), o, n - 1);
    }
  }
}
