/**
 * The proof protocol as interleaved calls on one store. A call is an `async` function in flight; each
 * case is the point at which it is suspended, with the values it has read so far. Every database
 * statement or transaction is one step, and so is each read that happens outside a transaction.
 */
module Protocol {
  import opened Common
  import opened Tally
  import opened Store

  datatype Config = Config(assignmentCount: nat, quorumRequired: int)

  datatype Call =
    // the verification worker's job
    | WorkerStart(proof: ProofId, retry: bool)
    | WorkerResume(proof: ProofId, retry: bool)
    | WorkerLoad(proof: ProofId)
    | WorkerJudge(proof: ProofId, task: TaskId)
    | WorkerDecide(proof: ProofId, task: TaskId, choice: Choice)
    | AssignRead(proof: ProofId)
    | AssignCount(proof: ProofId, submitter: UserId)
    | AssignPick(proof: ProofId, submitter: UserId)
    | AssignInsert(proof: ProofId, submitter: UserId, chosen: seq<UserId>)
    | WorkerRecord(proof: ProofId)
    | WorkerEscalate(proof: ProofId)
    // castVote, resolveQuorum and finalizeProof
    | VoteCheck(proof: ProofId, validator: UserId, choice: Choice)
    | VoteWrite(proof: ProofId, validator: UserId, choice: Choice)
    | VoteSnapshot(proof: ProofId)
    | FinalizeRead(proof: ProofId, winner: Choice, submitted: seq<Ballot>)
    | FinalizeWrite(proof: ProofId, task: TaskId, winner: Choice, submitted: seq<Ballot>)
    | NoQuorumWrite(proof: ProofId, submitted: seq<Ballot>)
    // the admin's reviewProof
    | ReviewLoad(proof: ProofId, admin: UserId, choice: Choice)
    | ReviewWrite(proof: ProofId, task: TaskId, admin: UserId, choice: Choice)

  datatype AutoVerdict = AutoApproved | AutoRejected | AutoInconclusive | AutoThrows

  /** What a step does not decide itself: autoVerify's verdict, and the order in which rows come back. */
  datatype Oracle = Oracle(verdict: AutoVerdict, rows: seq<UserId>)

  function Settle(s: Store, o: Outcome): Store {
    if o.Commit? then o.store else s
  }

  /** One step of a call: the new store, and where the call is suspended next (None: returned or thrown). */
  function Advance(cfg: Config, s: Store, c: Call, o: Oracle): (Store, Option<Call>) {
    match c
    case WorkerStart(p, retry) =>
      if p in s.proofs && s.proofs[p].status.PENDING? then (BeginVerify(s, p), Some(WorkerLoad(p)))
      else (s, Some(WorkerResume(p, retry)))
    case WorkerResume(p, retry) =>
      (s, if p in s.proofs && s.proofs[p].status.VERIFYING? && retry then Some(WorkerLoad(p)) else None)
    case WorkerLoad(p) =>
      (s, if p in s.proofs then Some(WorkerJudge(p, s.proofs[p].task)) else None)
    case WorkerJudge(p, t) =>
      (s, match o.verdict
          case AutoApproved => Some(WorkerDecide(p, t, Approve))
          case AutoRejected => Some(WorkerDecide(p, t, Reject))
          case AutoInconclusive => Some(AssignRead(p))
          case AutoThrows => None)
    case WorkerDecide(p, t, choice) => (Settle(s, WorkerVerdictTx(s, p, t, choice)), None)
    case AssignRead(p) =>
      (s, if p !in s.proofs then None
          else if Awaiting(s.proofs[p].status) then Some(AssignCount(p, s.proofs[p].submitter))
          else Some(WorkerEscalate(p)))
    case AssignCount(p, submitter) =>
      (s, if p in s.proofs && |s.proofs[p].votes| > 0 then Some(WorkerRecord(p)) else Some(AssignPick(p, submitter)))
    case AssignPick(p, submitter) =>
      (s, if o.rows == [] then Some(WorkerEscalate(p)) else Some(AssignInsert(p, submitter, o.rows)))
    case AssignInsert(p, _, chosen) =>
      var r := AssignTx(s, p, chosen);
      (Settle(s, r), if r.Commit? then Some(WorkerRecord(p)) else None)
    case WorkerRecord(p) => (Settle(s, RecordInconclusiveTx(s, p)), None)
    case WorkerEscalate(p) => (EscalateTx(s, p), None)
    case VoteCheck(p, v, choice) =>
      (s, if p in s.proofs && v in s.proofs[p].votes && s.proofs[p].votes[v].None? && Awaiting(s.proofs[p].status)
          then Some(VoteWrite(p, v, choice)) else None)
    case VoteWrite(p, v, choice) =>
      var r := VoteTx(s, p, v, choice);
      (Settle(s, r), if r.Commit? then Some(VoteSnapshot(p)) else None)
    case VoteSnapshot(p) =>
      if p !in s.proofs then (s, None)
      else
        var submitted := Submitted(s.proofs[p].votes, o.rows);
        (s, match Resolve(Decided(s.proofs[p].status), submitted, |o.rows|, cfg.quorumRequired)
            case Finalize(w) => Some(FinalizeRead(p, w, submitted))
            case Escalate => Some(NoQuorumWrite(p, submitted))
            case _ => None)
    case FinalizeRead(p, w, submitted) =>
      (s, if p in s.proofs && Awaiting(s.proofs[p].status)
          then Some(FinalizeWrite(p, s.proofs[p].task, w, submitted)) else None)
    case FinalizeWrite(p, t, w, submitted) => (Settle(s, FinalizeTx(s, p, t, w, submitted)), None)
    case NoQuorumWrite(p, submitted) => (Settle(s, NoQuorumTx(s, p, submitted)), None)
    case ReviewLoad(p, admin, choice) =>
      (s, if p in s.proofs && Awaiting(s.proofs[p].status)
          then Some(ReviewWrite(p, s.proofs[p].task, admin, choice)) else None)
    case ReviewWrite(p, t, admin, choice) => (Settle(s, ReviewTx(s, p, t, admin, choice)), None)
  }

  /** The rows a step is handed must be ones the database can return. */
  ghost predicate OracleOk(cfg: Config, s: Store, c: Call, o: Oracle) {
    match c
    case VoteSnapshot(p) => p in s.proofs ==> Lists(o.rows, s.proofs[p].votes.Keys)
    case AssignPick(_, submitter) => LeastLoaded(s.users, submitter, cfg.assignmentCount, o.rows)
    case _ => true
  }

  predicate Initial(c: Call) {
    c.WorkerStart? || c.VoteCheck? || c.ReviewLoad?
  }

  /** A committed slot that no payout goes with: the guarded status update matched no row. */
  predicate LeaksSlot(s: Store, c: Call) {
    && ((c.ReviewWrite? && c.choice.Approve?) || (c.FinalizeWrite? && c.winner.Approve?))
    && SlotFree(s.tasks, c.task)
    && !(c.proof in s.proofs && Awaiting(s.proofs[c.proof].status))
  }

  /** A castVote call that has written its vote and is on its way to a resolution. */
  predicate Resolving(c: Call) {
    c.VoteSnapshot? || c.FinalizeRead? || c.FinalizeWrite?
  }

  predicate AfterVote(c: Call) {
    Resolving(c) || c.NoQuorumWrite?
  }

  /**
   * Capacity as the completion slots keep it: never more completions than allowed, COMPLETED exactly at the
   * maximum.
   */
  predicate TaskOk(t: Task) {
    && (t.maxCompletions.Some? ==> t.completedCount <= t.maxCompletions.value)
    && (t.status.COMPLETED? <==> t.maxCompletions.Some? && t.completedCount == t.maxCompletions.value)
  }

  /** An admin's task update: the fields given replace those of the row, whatever the row's count. */
  function EditedTask(t: Task, maxCompletions: Option<nat>, status: Option<TaskStatus>, expiresAt: Option<int>): Task {
    t.(maxCompletions := if maxCompletions.Some? then maxCompletions else t.maxCompletions,
       status := if status.Some? then status.value else t.status,
       expiresAt := if expiresAt.Some? then expiresAt else t.expiresAt)
  }

  /** A finalization that decides its proof. */
  predicate Finalizes(s: Store, c: Call) {
    && c.FinalizeWrite? && c.proof in s.proofs && Awaiting(s.proofs[c.proof].status)
    && FinalizeTx(s, c.proof, c.task, c.winner, c.submitted).Commit?
  }

  /** The snapshot behind a quorum verdict. */
  datatype Backing = Backing(winner: Choice, submitted: seq<Ballot>)

  /** The voters whose review counts a step of `c` raises. */
  ghost function Credited(s: Store, c: Call): multiset<UserId> {
    if Finalizes(s, c) then multiset(Voters(c.submitted))
    else if c.NoQuorumWrite? && NoQuorumTx(s, c.proof, c.submitted).Commit? then multiset(Voters(c.submitted))
    else multiset{}
  }

  /**
   * The store, the calls in flight, and records of the past: proof ids ever used, slots committed without a
   * payout, proofs for which a castVote call died after writing its vote, tasks whose last edit put them out of
   * step with their count, how often each validator was credited with a review, and the snapshot by which a proof
   * was finalized.
   */
  datatype System = System(
    cfg: Config,
    store: Store,
    calls: map<nat, Call>,
    issued: set<ProofId>,
    leaked: multiset<TaskId>,
    abandoned: set<ProofId>,
    skewed: set<TaskId>,
    credits: multiset<UserId>,
    backings: map<ProofId, Backing>)

  datatype Event =
    | Begin(id: nat, call: Call)
    | Step(id: nat, oracle: Oracle)
    | Crash(id: nat)
    | CreateTask(task: TaskId, maxCompletions: Option<nat>, expiresAt: Option<int>)
    | EditTask(task: TaskId, newMax: Option<nat>, newStatus: Option<TaskStatus>, newExpiry: Option<int>)
    | CreateUser(user: UserId)
    | SetRole(user: UserId, validator: bool)
    | SetClaim(task: TaskId, user: UserId, claim: Claim)
    | Submit(proof: ProofId, task: TaskId, user: UserId, now: int)
    | Rollback(proof: ProofId)
    | SweepTasks(now: int)
    | SweepClaims(now: int)

  ghost predicate Enabled(x: System, e: Event) {
    match e
    case Begin(id, call) => id !in x.calls && Initial(call)
    case Step(id, o) => id in x.calls && OracleOk(x.cfg, x.store, x.calls[id], o)
    case Crash(id) => id in x.calls
    case CreateTask(t, max, _) => t !in x.store.tasks && (max.Some? ==> max.value > 0)
    case EditTask(t, max, _, _) => t in x.store.tasks && (max.Some? ==> max.value > 0)
    case CreateUser(u) => u !in x.store.users
    case SetRole(u, _) => u in x.store.users
    case Submit(p, _, u, _) => p !in x.issued && u in x.store.users
    case _ => true
  }

  ghost function Apply(x: System, e: Event): System
    requires e.Step? || e.Crash? ==> e.id in x.calls
    requires e.SetRole? ==> e.user in x.store.users
    requires e.EditTask? ==> e.task in x.store.tasks
  {
    var s := x.store;
    match e
    case Begin(id, call) => x.(calls := x.calls[id := call])
    case Step(id, o) =>
      var c := x.calls[id];
      var (s', next) := Advance(x.cfg, s, c, o);
      x.(store := s',
         calls := if next.Some? then x.calls[id := next.value] else x.calls - {id},
         leaked := if LeaksSlot(s, c) then x.leaked + multiset{c.task} else x.leaked,
         credits := x.credits + Credited(s, c),
         backings := if Finalizes(s, c) then x.backings[c.proof := Backing(c.winner, c.submitted)] else x.backings)
    case Crash(id) =>
      x.(calls := x.calls - {id},
         abandoned := if AfterVote(x.calls[id]) then x.abandoned + {x.calls[id].proof} else x.abandoned)
    case CreateTask(t, max, expiry) => x.(store := s.(tasks := s.tasks[t := Task(ACTIVE, 0, max, expiry)]))
    case EditTask(t, max, status, expiry) =>
      var task := EditedTask(s.tasks[t], max, status, expiry);
      x.(store := s.(tasks := s.tasks[t := task]),
         skewed := if TaskOk(task) then x.skewed - {t} else x.skewed + {t})
    case CreateUser(u) => x.(store := s.(users := s.users[u := User(false, 0, 0)]))
    case SetRole(u, validator) => x.(store := s.(users := s.users[u := s.users[u].(validator := validator)]))
    case SetClaim(t, u, claim) => x.(store := s.(claims := s.claims[(t, u) := claim]))
    case Submit(p, t, u, now) => x.(store := SubmitTx(s, p, t, u, now), issued := x.issued + {p})
    case Rollback(p) => x.(store := Settle(s, RollbackTx(s, p)))
    case SweepTasks(now) => x.(store := ExpireTasks(s, now))
    case SweepClaims(now) => x.(store := ExpireClaims(s, now))
  }

  function Empty(cfg: Config): System {
    System(cfg, Store(map[], map[], map[], map[]), map[], {}, multiset{}, {}, {}, multiset{}, map[])
  }

  /** `y` is where the run `es` leads from `x`. */
  ghost predicate Runs(x: System, es: seq<Event>, y: System)
    decreases es
  {
    if es == [] then y == x
    else Enabled(x, es[0]) && Runs(Apply(x, es[0]), es[1..], y)
  }

  ghost predicate Reachable(y: System) {
    exists cfg, es :: Runs(Empty(cfg), es, y)
  }
}
