/** The safety theorems of the proof protocol, over every reachable system. */
module ProtocolTheorems {
  import opened Common
  import opened Tally
  import opened Store
  import opened Protocol
  import opened ProtocolSafety
  import opened Decisions

  // ---- runs ----

  lemma {:induction false} RunsSnoc(x: System, es: seq<Event>, y: System, e: Event)
    requires Runs(x, es, y) && Enabled(y, e)
    ensures Runs(x, es + [e], Apply(y, e))
    decreases es
  {
    if es == [] {
    } else {
      RunsSnoc(Apply(x, es[0]), es[1..], y, e);
      assert (es + [e])[1..] == es[1..] + [e];
    }
  }

  lemma ReachableStep(y: System, e: Event)
    requires Reachable(y) && Enabled(y, e)
    ensures Reachable(Apply(y, e))
  {
    var cfg, es :| Runs(Empty(cfg), es, y);
    RunsSnoc(Empty(cfg), es, y, e);
  }

  // ---- completions, payouts and capacity ----

  lemma ApprovedHavePayouts(proofs: map<ProofId, Proof>, t: TaskId)
    requires forall p :: p in proofs ==> ProofOk(proofs[p])
    ensures ApprovedProofs(proofs, t) <= PayoutRows(proofs, t)
    ensures |ApprovedProofs(proofs, t)| <= |PayoutRows(proofs, t)|
  {
    forall p | p in ApprovedProofs(proofs, t)
      ensures p in PayoutRows(proofs, t)
    {
      PayoutMatchesStatus(proofs[p]);
    }
    SubsetSize(ApprovedProofs(proofs, t), PayoutRows(proofs, t));
  }

  /**
   * Approved proofs <= payout rows <= completed count, always; the count is within the maximum, and the task
   * COMPLETED exactly at the maximum, if and only if the task's last edit, if any, left it so.
   */
  lemma Capacity(y: System, t: TaskId)
    requires Reachable(y) && t in y.store.tasks
    ensures var task := y.store.tasks[t];
            && |ApprovedProofs(y.store.proofs, t)| <= |PayoutRows(y.store.proofs, t)| <= task.completedCount
            && (t !in y.skewed <==>
                  && (task.maxCompletions.Some? ==> task.completedCount <= task.maxCompletions.value)
                  && (task.status.COMPLETED? <==>
                        task.maxCompletions.Some? && task.completedCount == task.maxCompletions.value))
  {
    ReachableInv(y);
    ApprovedHavePayouts(y.store.proofs, t);
    assert TaskOk(y.store.tasks[t]) <==> t !in y.skewed;
  }

  ghost predicate Edits(es: seq<Event>, t: TaskId) {
    exists i :: 0 <= i < |es| && es[i].EditTask? && es[i].task == t
  }

  lemma {:induction false} SkewNeedsEdit(x: System, es: seq<Event>, y: System, t: TaskId)
    requires Runs(x, es, y) && t in y.skewed && t !in x.skewed
    ensures Edits(es, t)
    decreases es
  {
    var e := es[0];
    if t in Apply(x, e).skewed {
      assert es[0].EditTask? && es[0].task == t;
    } else {
      SkewNeedsEdit(Apply(x, e), es[1..], y, t);
      var i :| 0 <= i < |es[1..]| && es[1..][i].EditTask? && es[1..][i].task == t;
      assert es[i + 1].EditTask? && es[i + 1].task == t;
    }
  }

  /** Without an edit of the task, its capacity is kept along the whole run, whatever workers, voters and admins do. */
  lemma CapacityWithoutEdits(cfg: Config, es: seq<Event>, y: System, t: TaskId)
    requires Runs(Empty(cfg), es, y) && t in y.store.tasks && !Edits(es, t)
    ensures TaskOk(y.store.tasks[t])
  {
    Capacity(y, t);
    if t in y.skewed {
      SkewNeedsEdit(Empty(cfg), es, y, t);
    }
  }

  /**
   * Conservation, also under task edits: each counted completion is a payout row or a slot whose status update
   * matched no row.
   */
  lemma CompletionsConserved(y: System, t: TaskId)
    requires Reachable(y) && t in y.store.tasks
    ensures y.store.tasks[t].completedCount == |PayoutRows(y.store.proofs, t)| + y.leaked[t]
  {
    ReachableInv(y);
  }

  ghost function Gap(s: Store, t: TaskId): int
    requires t in s.tasks
  {
    s.tasks[t].completedCount - |PayoutRows(s.proofs, t)|
  }

  lemma LeakRecordedIff(x: System, e: Event, t: TaskId)
    requires Enabled(x, e)
    ensures Apply(x, e).leaked[t]
            == x.leaked[t] + (if e.Step? && LeaksSlot(x.store, x.calls[e.id]) && x.calls[e.id].task == t then 1 else 0)
  {}

  /** A step widens the gap between count and payouts exactly when a guarded writer leaks a slot of that task. */
  lemma GapWidensIff(x: System, e: Event, t: TaskId)
    requires Reachable(x) && Enabled(x, e) && t in x.store.tasks
    ensures t in Apply(x, e).store.tasks
    ensures Gap(Apply(x, e).store, t) > Gap(x.store, t)
            <==> && e.Step? && var c := x.calls[e.id];
                 && ((c.ReviewWrite? && c.choice == Approve) || (c.FinalizeWrite? && c.winner == Approve))
                 && c.task == t && HasRoom(x.store.tasks[t])
                 && !(c.proof in x.store.proofs && Awaiting(x.store.proofs[c.proof].status))
    ensures Gap(Apply(x, e).store, t) >= Gap(x.store, t)
  {
    CompletionsConserved(x, t);
    ApplyGrows(x, e);
    ReachableStep(x, e);
    CompletionsConserved(Apply(x, e), t);
    LeakRecordedIff(x, e, t);
  }

  /** One user, one task, one proof. */
  function OneProof(cfg: Config, task: Task, proof: Proof, calls: map<nat, Call>): System {
    System(cfg,
           Store(map[0 := task], map[0 := proof], map[0 := User(false, 0, 0)], map[(0, 0) := Claim(Held, 9)]),
           calls, {0}, multiset{}, {}, {}, multiset{}, map[])
  }

  const OPEN := Task(ACTIVE, 0, None, None)
  const FRESH := Proof(0, 0, PENDING, NO_VOTES, [], [], false)

  function OnePending(cfg: Config, calls: map<nat, Call>): System {
    OneProof(cfg, OPEN, FRESH, calls)
  }

  lemma OneTaskReachable(cfg: Config)
    ensures Reachable(OneTask(cfg))
  {
    var x0 := Empty(cfg);
    assert Runs(x0, [], x0);
    ReachableStep(x0, CreateUser(0));
    var x1 := Apply(x0, CreateUser(0));
    ReachableStep(x1, CreateTask(0, None, None));
    assert Apply(x1, CreateTask(0, None, None)) == OneTask(cfg);
  }

  /** One user and one task. */
  function OneTask(cfg: Config): System {
    Empty(cfg).(store := Store(map[0 := OPEN], map[], map[0 := User(false, 0, 0)], map[]))
  }

  lemma OnePendingReachable(cfg: Config)
    ensures Reachable(OnePending(cfg, map[]))
  {
    OneTaskReachable(cfg);
    var x2 := OneTask(cfg);
    ReachableStep(x2, SetClaim(0, 0, Claim(Held, 9)));
    var x3 := Apply(x2, SetClaim(0, 0, Claim(Held, 9)));
    ReachableStep(x3, Submit(0, 0, 0, 1));
    assert CheckEligibility(x3.store, 0, 0, 1).Eligible?;
    assert Apply(x3, Submit(0, 0, 0, 1)) == OnePending(cfg, map[]);
  }

  /** A new call begins. */
  lemma CallBegins(cfg: Config, task: Task, proof: Proof, calls: map<nat, Call>, id: nat, c: Call)
    requires Reachable(OneProof(cfg, task, proof, calls)) && id !in calls && Initial(c)
    ensures Reachable(OneProof(cfg, task, proof, calls[id := c]))
  {
    ReachableStep(OneProof(cfg, task, proof, calls), Begin(id, c));
    assert Apply(OneProof(cfg, task, proof, calls), Begin(id, c)) == OneProof(cfg, task, proof, calls[id := c]);
  }

  /** A call takes a step that leaks no slot, credits no one and goes on at `next`. */
  lemma CallMoves(cfg: Config, task: Task, proof: Proof, calls: map<nat, Call>, id: nat, c: Call, o: Oracle,
                  task': Task, proof': Proof, next: Call)
    requires Reachable(OneProof(cfg, task, proof, calls[id := c])) && !AfterVote(c)
    requires var s := OneProof(cfg, task, proof, calls).store;
             OracleOk(cfg, s, c, o) && !LeaksSlot(s, c)
             && Advance(cfg, s, c, o) == (OneProof(cfg, task', proof', calls).store, Some(next))
    ensures Reachable(OneProof(cfg, task', proof', calls[id := next]))
  {
    var x := OneProof(cfg, task, proof, calls[id := c]);
    ReachableStep(x, Step(id, o));
    assert calls[id := c][id := next] == calls[id := next];
    assert Apply(x, Step(id, o)) == OneProof(cfg, task', proof', calls[id := next]);
  }

  /** A call takes its last step, which leaks no slot and credits no one. */
  lemma CallEnds(cfg: Config, task: Task, proof: Proof, calls: map<nat, Call>, id: nat, c: Call, o: Oracle,
                 task': Task, proof': Proof)
    requires Reachable(OneProof(cfg, task, proof, calls[id := c])) && !AfterVote(c) && id !in calls
    requires var s := OneProof(cfg, task, proof, calls).store;
             OracleOk(cfg, s, c, o) && !LeaksSlot(s, c)
             && Advance(cfg, s, c, o) == (OneProof(cfg, task', proof', calls).store, None)
    ensures Reachable(OneProof(cfg, task', proof', calls))
  {
    var x := OneProof(cfg, task, proof, calls[id := c]);
    ReachableStep(x, Step(id, o));
    assert calls[id := c] - {id} == calls;
    assert Apply(x, Step(id, o)) == OneProof(cfg, task', proof', calls);
  }

  const ANY := Oracle(AutoThrows, [])

  /** An admin reads an undecided proof and is about to decide it. */
  lemma ReviewLoads(cfg: Config, proof: Proof, calls: map<nat, Call>, id: nat, admin: UserId, choice: Choice)
    requires Reachable(OneProof(cfg, OPEN, proof, calls)) && id !in calls
    requires Awaiting(proof.status) && proof.task == 0
    ensures Reachable(OneProof(cfg, OPEN, proof, calls[id := ReviewWrite(0, 0, admin, choice)]))
  {
    var load := ReviewLoad(0, admin, choice);
    CallBegins(cfg, OPEN, proof, calls, id, load);
    CallMoves(cfg, OPEN, proof, calls, id, load, ANY, OPEN, proof, ReviewWrite(0, 0, admin, choice));
  }

  function AfterReview(admin: UserId, choice: Choice): Proof {
    Proof(0, 0, if choice.Approve? then APPROVED else REJECTED, NO_VOTES,
          [Verification(Admin(admin), Judged(choice), Plain)], [choice.Approve?], choice.Approve?)
  }

  const ONE_DONE := Task(ACTIVE, 1, None, None)

  /** An admin decides the proof. */
  lemma ReviewDecides(cfg: Config, status: ProofStatus, calls: map<nat, Call>, id: nat, admin: UserId, choice: Choice)
    requires id !in calls && Awaiting(status)
    requires Reachable(OneProof(cfg, OPEN, FRESH.(status := status), calls[id := ReviewWrite(0, 0, admin, choice)]))
    ensures Reachable(OneProof(cfg, if choice.Approve? then ONE_DONE else OPEN, AfterReview(admin, choice), calls))
  {
    var proof := FRESH.(status := status);
    var task' := if choice.Approve? then ONE_DONE else OPEN;
    var c := ReviewWrite(0, 0, admin, choice);
    var s := OneProof(cfg, OPEN, proof, calls).store;
    var s' := OneProof(cfg, task', AfterReview(admin, choice), calls).store;
    assert AfterSlot(s, 0, choice).tasks == s'.tasks;
    assert WithVerdict(proof, choice.Approve?, VerdictRow(s, 0, Admin(admin), choice)) == AfterReview(admin, choice);
    assert s.proofs[0 := AfterReview(admin, choice)] == s'.proofs;
    assert Advance(cfg, s, c, ANY).0 == s';
    CallEnds(cfg, OPEN, proof, calls, id, c, ANY, task', AfterReview(admin, choice));
  }

  /** The second of two admin approvals claims a slot, finds the proof decided, and keeps the slot. */
  lemma SecondApprovalLeaks(cfg: Config)
    requires Reachable(OneProof(cfg, ONE_DONE, AfterReview(8, Approve), map[][0 := ReviewWrite(0, 0, 7, Approve)]))
    ensures exists z: System :: Reachable(z) && 0 in z.store.tasks && z.leaked == multiset{0}
  {
    var y := OneProof(cfg, ONE_DONE, AfterReview(8, Approve), map[][0 := ReviewWrite(0, 0, 7, Approve)]);
    assert LeaksSlot(y.store, y.calls[0]);
    ReachableStep(y, Step(0, ANY));
    AdvanceGrows(y.cfg, y.store, y.calls[0], ANY);
    var z := Apply(y, Step(0, ANY));
    assert z.leaked == multiset{0} && 0 in z.store.tasks;
  }

  /** So the completed count can exceed the payout rows: two admins approve the same pending proof. */
  lemma CountMayExceedPayouts(cfg: Config)
    ensures exists z: System :: Reachable(z) && 0 in z.store.tasks && Gap(z.store, 0) == 1
  {
    var first: map<nat, Call> := map[][0 := ReviewWrite(0, 0, 7, Approve)];
    OnePendingReachable(cfg);
    ReviewLoads(cfg, FRESH, map[], 0, 7, Approve);
    ReviewLoads(cfg, FRESH, first, 1, 8, Approve);
    ReviewDecides(cfg, PENDING, first, 1, 8, Approve);
    SecondApprovalLeaks(cfg);
    var z: System :| Reachable(z) && 0 in z.store.tasks && z.leaked == multiset{0};
    CompletionsConserved(z, 0);
  }

  /**
   * A submission is refused as full exactly for a claim holder on a task that is ACTIVE although its last edit put
   * it at or above its maximum; every other full task is no longer ACTIVE, which is checked first.
   */
  lemma RefusedAsFullIff(y: System, t: TaskId, u: UserId, now: int)
    requires Reachable(y)
    ensures CheckEligibility(y.store, t, u, now) == Refused(409)
            <==> && t in y.store.tasks && t in y.skewed && y.store.tasks[t].status == ACTIVE
                 && (t, u) in y.store.claims && y.store.claims[(t, u)].status == Held
                 && now < y.store.claims[(t, u)].expiresAt
    ensures CheckEligibility(y.store, t, u, now) == Eligible ==> t in y.store.tasks && HasRoom(y.store.tasks[t])
  {
    ReachableInv(y);
    RefusedBecause(y.store, t, u, now);
    if t in y.store.tasks { assert TaskOk(y.store.tasks[t]) <==> t !in y.skewed; }
  }

  /** So along a run in which no one edits the task, no submission for it is refused as full. */
  lemma RefusedOnlyAfterEdit(cfg: Config, es: seq<Event>, y: System, t: TaskId, u: UserId, now: int)
    requires Runs(Empty(cfg), es, y) && CheckEligibility(y.store, t, u, now) == Refused(409)
    ensures Edits(es, t)
  {
    RefusedAsFullIff(y, t, u, now);
    SkewNeedsEdit(Empty(cfg), es, y, t);
  }

  /** And it does occur: the maximum is lowered to a count of one while the task is ACTIVE. */
  lemma RefusedAfterEdit(cfg: Config)
    ensures exists y: System :: Reachable(y) && CheckEligibility(y.store, 0, 0, 1) == Refused(409)
  {
    OnePendingReachable(cfg);
    ReviewLoads(cfg, FRESH, map[], 0, 7, Approve);
    ReviewDecides(cfg, PENDING, map[], 0, 7, Approve);
    var x := OneProof(cfg, ONE_DONE, AfterReview(7, Approve), map[]);
    var e := EditTask(0, Some(1), None, None);
    ReachableStep(x, e);
    assert Apply(x, e).store.tasks[0] == Task(ACTIVE, 1, Some(1), None);
    assert CheckEligibility(Apply(x, e).store, 0, 0, 1) == Refused(409);
  }

  // ---- decided proofs ----

  lemma DecidedNotRemoved(s: Store, id: ProofId, p: ProofId)
    requires p in s.proofs && Decided(s.proofs[p].status) && ProofOk(s.proofs[p])
    ensures p in Settle(s, RollbackTx(s, id)).proofs && Settle(s, RollbackTx(s, id)).proofs[p] == s.proofs[p]
  {
    if id == p {
      assert Verdicts(s.proofs[p].verifications) != [];
    }
  }

  lemma EnvironmentKeepsDecided(x: System, e: Event, p: ProofId)
    requires Inv(x) && Enabled(x, e) && !e.Step?
    requires p in x.store.proofs && Decided(x.store.proofs[p].status)
    ensures p in Apply(x, e).store.proofs && Apply(x, e).store.proofs[p] == x.store.proofs[p]
  {
    assert ProofOk(x.store.proofs[p]) && p in x.issued;
    if e.Rollback? {
      DecidedNotRemoved(x.store, e.proof, p);
    }
  }

  lemma StepKeepsDecided(x: System, e: Event, p: ProofId)
    requires Inv(x) && Enabled(x, e)
    requires p in x.store.proofs && Decided(x.store.proofs[p].status)
    ensures p in Apply(x, e).store.proofs && KeepsProof(x.store.proofs[p], Apply(x, e).store.proofs[p])
    ensures !e.Step? ==> Apply(x, e).store.proofs[p] == x.store.proofs[p]
  {
    if e.Step? {
      AdvanceTouches(x.cfg, x.store, x.calls[e.id], e.oracle);
    } else {
      EnvironmentKeepsDecided(x, e, p);
    }
  }

  /** A decided proof is never deleted and never becomes PENDING or VERIFYING again. */
  lemma {:induction false} DecidedForever(x: System, es: seq<Event>, y: System, p: ProofId)
    requires Reachable(x) && Runs(x, es, y)
    requires p in x.store.proofs && Decided(x.store.proofs[p].status)
    ensures p in y.store.proofs && Decided(y.store.proofs[p].status)
    decreases es
  {
    if es != [] {
      ReachableInv(x);
      StepKeepsDecided(x, es[0], p);
      ReachableStep(x, es[0]);
      DecidedForever(Apply(x, es[0]), es[1..], y, p);
    }
  }

  /** The worker's verdict transaction replaces a final verdict exactly in these two cases. */
  predicate Overturns(s: Store, c: Call) {
    && c.WorkerDecide?
    && c.proof in s.proofs
    && var approves := c.choice == Approve && c.task in s.tasks && HasRoom(s.tasks[c.task]);
       if s.proofs[c.proof].status == APPROVED then !approves
       else approves && !s.proofs[c.proof].hasPayout
  }

  lemma AdvanceReplacesIff(cfg: Config, s: Store, c: Call, o: Oracle, p: ProofId)
    requires p in s.proofs && Decided(s.proofs[p].status)
    requires s.proofs[p].status.APPROVED? ==> s.proofs[p].hasPayout
    ensures p in Advance(cfg, s, c, o).0.proofs
    ensures Advance(cfg, s, c, o).0.proofs[p].status != s.proofs[p].status <==> Overturns(s, c) && c.proof == p
  {
    AdvanceTouches(cfg, s, c, o);
    if !Decides(c) {
      OtherStepTouches(cfg, s, c, o);
    } else if p == c.proof && !c.WorkerDecide? {
      LateDecisionIsInert(s, c, cfg, o);
    }
  }

  lemma VerdictReplacedIff(x: System, e: Event, p: ProofId)
    requires Reachable(x) && Enabled(x, e)
    requires p in x.store.proofs && Decided(x.store.proofs[p].status)
    ensures p in Apply(x, e).store.proofs
    ensures Apply(x, e).store.proofs[p].status != x.store.proofs[p].status
            <==> e.Step? && Overturns(x.store, x.calls[e.id]) && x.calls[e.id].proof == p
  {
    ReachableInv(x);
    StepKeepsDecided(x, e, p);
    PayoutMatchesStatus(x.store.proofs[p]);
    if e.Step? {
      AdvanceReplacesIff(x.cfg, x.store, x.calls[e.id], e.oracle, p);
    }
  }

  /** The worker takes the proof up and is about to approve it. */
  lemma WorkerApproves(cfg: Config)
    ensures Reachable(OneProof(cfg, OPEN, FRESH.(status := VERIFYING), map[][0 := WorkerDecide(0, 0, Approve)]))
  {
    var none: map<nat, Call> := map[];
    var taken := FRESH.(status := VERIFYING);
    OnePendingReachable(cfg);
    CallBegins(cfg, OPEN, FRESH, none, 0, WorkerStart(0, false));
    assert map[0 := FRESH][0 := taken] == map[0 := taken];
    CallMoves(cfg, OPEN, FRESH, none, 0, WorkerStart(0, false), ANY, OPEN, taken, WorkerLoad(0));
    CallMoves(cfg, OPEN, taken, none, 0, WorkerLoad(0), ANY, OPEN, taken, WorkerJudge(0, 0));
    CallMoves(cfg, OPEN, taken, none, 0, WorkerJudge(0, 0), Oracle(AutoApproved, []), OPEN, taken,
              WorkerDecide(0, 0, Approve));
  }

  /** Meanwhile an admin rejects the proof; the approval in flight overwrites that. */
  lemma VerdictOverturned(cfg: Config)
    ensures exists x: System, e ::
              && Reachable(x) && Enabled(x, e) && 0 in x.store.proofs && x.store.proofs[0].status.REJECTED?
              && 0 in Apply(x, e).store.proofs && Apply(x, e).store.proofs[0].status.APPROVED?
  {
    WorkerApproves(cfg);
    var worker: map<nat, Call> := map[][0 := WorkerDecide(0, 0, Approve)];
    ReviewLoads(cfg, FRESH.(status := VERIFYING), worker, 1, 7, Reject);
    ReviewDecides(cfg, VERIFYING, worker, 1, 7, Reject);
    var x := OneProof(cfg, OPEN, AfterReview(7, Reject), worker);
    assert Enabled(x, Step(0, ANY));
    assert Apply(x, Step(0, ANY)).store.proofs[0].status.APPROVED?;
  }

  /** A finalization or review that arrives after a decision changes no proof and credits no one. */
  lemma LateDecisionIsInert(s: Store, c: Call, cfg: Config, o: Oracle)
    requires c.FinalizeWrite? || c.ReviewWrite?
    requires c.proof in s.proofs && Decided(s.proofs[c.proof].status)
    ensures var s' := Advance(cfg, s, c, o).0;
            s'.proofs == s.proofs && s'.users == s.users && s'.claims == s.claims
  {}

  function GuardedRows(rows: seq<Verification>): seq<Verification> {
    if rows == [] then []
    else
      var last := rows[|rows| - 1];
      GuardedRows(rows[..|rows| - 1]) + (if IsGuarded(last) then [last] else [])
  }

  lemma {:induction false} GuardedAmongVerdicts(rows: seq<Verification>)
    ensures |GuardedRows(rows)| <= |Verdicts(rows)|
    ensures (forall i :: 0 < i < |Verdicts(rows)| ==> !IsGuarded(Verdicts(rows)[i])) ==> |GuardedRows(rows)| <= 1
  {
    if rows != [] {
      var init := rows[..|rows| - 1];
      GuardedAmongVerdicts(init);
      var vs := Verdicts(rows);
      if forall i :: 0 < i < |vs| ==> !IsGuarded(vs[i]) {
        forall i | 0 < i < |Verdicts(init)|
          ensures !IsGuarded(Verdicts(init)[i])
        {
          assert vs[i] == Verdicts(init)[i];
        }
        if IsGuarded(rows[|rows| - 1]) {
          assert vs[|vs| - 1] == rows[|rows| - 1];
          assert |vs| == 1;
        }
      }
    }
  }

  /**
   * Of all finalizations and admin reviews of one proof at most one took effect, and none after another
   * verdict; each verdict row has its notification, the last of which tells the current status; the
   * approval notification was written once if there is a payout row and never otherwise.
   */
  lemma EffectsOnce(y: System, p: ProofId)
    requires Reachable(y) && p in y.store.proofs
    ensures var r := y.store.proofs[p];
            && |GuardedRows(r.verifications)| <= 1
            && (forall i :: 0 < i < |Verdicts(r.verifications)| ==> Verdicts(r.verifications)[i].verifier.Auto?)
            && |r.notified| == |Verdicts(r.verifications)|
            && (Decided(r.status) ==> r.notified != [] && (r.status.APPROVED? <==> r.notified[|r.notified| - 1]))
            && (Awaiting(r.status) ==> r.notified == [] && !r.hasPayout)
            && Approvals(r.notified) == (if r.hasPayout then 1 else 0)
  {
    ReachableInv(y);
    var r := y.store.proofs[p];
    assert ProofOk(r);
    GuardedAmongVerdicts(r.verifications);
    PayoutMatchesStatus(r);
    VerdictsAreVerdicts(r.verifications);
  }

  lemma {:induction false} GuardedPrefix(a: seq<Verification>, b: seq<Verification>)
    requires a <= b && Verdicts(a) != []
    requires forall i :: 0 < i < |Verdicts(b)| ==> !IsGuarded(Verdicts(b)[i])
    ensures GuardedRows(b) == GuardedRows(a)
    ensures Verdicts(b) != []
    decreases |b|
  {
    if a != b {
      var init := b[..|b| - 1];
      assert a <= init;
      assert Verdicts(init) <= Verdicts(b);
      GuardedPrefix(a, init);
      if IsVerdict(b[|b| - 1]) {
        assert Verdicts(b)[|Verdicts(init)|] == b[|b| - 1];
      }
    }
  }

  lemma {:induction false} RowsGrow(x: System, es: seq<Event>, y: System, p: ProofId)
    requires Reachable(x) && Runs(x, es, y)
    requires p in x.store.proofs && Decided(x.store.proofs[p].status)
    ensures p in y.store.proofs && x.store.proofs[p].verifications <= y.store.proofs[p].verifications
    decreases es
  {
    if es != [] {
      ReachableInv(x);
      StepKeepsDecided(x, es[0], p);
      ReachableStep(x, es[0]);
      RowsGrow(Apply(x, es[0]), es[1..], y, p);
    }
  }

  /** Once a proof is decided, no run ever adds another quorum or admin verdict to it. */
  lemma NoSecondDecision(x: System, es: seq<Event>, y: System, p: ProofId)
    requires Reachable(x) && Runs(x, es, y)
    requires p in x.store.proofs && Decided(x.store.proofs[p].status)
    ensures p in y.store.proofs
    ensures GuardedRows(y.store.proofs[p].verifications) == GuardedRows(x.store.proofs[p].verifications)
  {
    RowsGrow(x, es, y, p);
    ReachableInv(x);
    RunKeepsInv(x, es, y);
    assert ProofOk(x.store.proofs[p]) && ProofOk(y.store.proofs[p]);
    GuardedPrefix(x.store.proofs[p].verifications, y.store.proofs[p].verifications);
  }

  lemma {:induction false} MarkersCount(rows: seq<Verification>, i: nat, j: nat)
    requires i < j < |rows| && rows[i] == NO_VALIDATORS_ROW && rows[j] == NO_VALIDATORS_ROW
    ensures Markers(rows) >= 2
  {
    var init := rows[..|rows| - 1];
    if j < |init| {
      MarkersCount(init, i, j);
    } else {
      UnmarkedRows(init);
      assert init[i] == NO_VALIDATORS_ROW;
    }
  }

  /** However many workers escalate a proof for lack of validators, it gets one marker row. */
  lemma OneEscalationMarker(y: System, p: ProofId, i: nat, j: nat)
    requires Reachable(y) && p in y.store.proofs
    requires i < |y.store.proofs[p].verifications| && y.store.proofs[p].verifications[i] == NO_VALIDATORS_ROW
    requires j < |y.store.proofs[p].verifications| && y.store.proofs[p].verifications[j] == NO_VALIDATORS_ROW
    ensures i == j
  {
    ReachableInv(y);
    assert ProofOk(y.store.proofs[p]);
    if i < j {
      MarkersCount(y.store.proofs[p].verifications, i, j);
    } else if j < i {
      MarkersCount(y.store.proofs[p].verifications, j, i);
    }
  }

  lemma VerdictsAreVerdicts(rows: seq<Verification>)
    ensures forall i :: 0 <= i < |Verdicts(rows)| ==> IsVerdict(Verdicts(rows)[i])
  {
    if rows != [] {
      VerdictsAreVerdicts(rows[..|rows| - 1]);
    }
  }

  // ---- validators ----

  /** No reputation ever exceeds the number of reviews behind it, and no one votes on their own proof. */
  lemma ValidatorsAreSound(y: System)
    requires Reachable(y)
    ensures forall u :: u in y.store.users ==>
              0 - y.store.users[u].reviewCount <= y.store.users[u].validatorReputation <= y.store.users[u].reviewCount
    ensures forall p :: p in y.store.proofs ==> y.store.proofs[p].submitter !in y.store.proofs[p].votes
  {
    ReachableInv(y);
    forall u | u in y.store.users
      ensures 0 - y.store.users[u].reviewCount <= y.store.users[u].validatorReputation <= y.store.users[u].reviewCount
    {
      assert UserOk(y.store.users[u]);
    }
    forall p | p in y.store.proofs
      ensures y.store.proofs[p].submitter !in y.store.proofs[p].votes
    {
      assert ProofOk(y.store.proofs[p]);
    }
  }

  /** A finalization that finds the proof undecided always commits, and credits exactly its voters. */
  lemma FinalizationCredits(x: System, e: Event, c: Call)
    requires Reachable(x) && Enabled(x, e) && e.Step? && x.calls[e.id] == c && c.FinalizeWrite?
    requires c.proof in x.store.proofs && Awaiting(x.store.proofs[c.proof].status)
    ensures var s, s' := x.store, Apply(x, e).store;
            && c.proof in s'.proofs && Decided(s'.proofs[c.proof].status)
            && s'.users.Keys == s.users.Keys
            && (forall u :: u in s.users && u !in Voters(c.submitted) ==> s'.users[u] == s.users[u])
            && (forall i :: 0 <= i < |c.submitted| ==>
                  var u := c.submitted[i].validator;
                  && u in s.users
                  && s'.users[u].reviewCount == s.users[u].reviewCount + 1
                  && s'.users[u].validatorReputation
                     == s.users[u].validatorReputation + (if c.submitted[i].choice == c.winner then 1 else -1))
  {
    ReachableInv(x);
    assert CallOk(x.store, x.issued, c);
    PayoutMatchesStatus(x.store.proofs[c.proof]);
    FinalizeDecides(x.store, c.proof, c.task, c.winner, c.submitted);
    RewardEffect(x.store.users, c.submitted, c.winner, Apply(x, e).store.users);
  }
}
