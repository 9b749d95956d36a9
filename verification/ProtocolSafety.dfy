/** What every interleaving of worker, voter, admin and expiry steps keeps. */
module ProtocolSafety {
  import opened Common
  import opened Tally
  import opened Store
  import opened Protocol

  // ---- rows and how steps may change them ----

  /** Rows keep their identity: owners and tasks of proofs are immutable, users and tasks are never removed. */
  ghost predicate Grows(s: Store, s': Store, added: set<ProofId>) {
    && s.users.Keys <= s'.users.Keys
    && s.tasks.Keys <= s'.tasks.Keys
    && (forall p :: p in s'.proofs && p !in added ==>
          p in s.proofs && s'.proofs[p].submitter == s.proofs[p].submitter && s'.proofs[p].task == s.proofs[p].task)
  }

  lemma RewardKeepsUsers(users: map<UserId, User>, submitted: seq<Ballot>, verdict: Choice)
    ensures Reward(users, submitted, verdict).Some? ==> Reward(users, submitted, verdict).value.Keys == users.Keys
  {
    CreditKeepsUsers(users, submitted, 1, 0);
    if Credit(users, submitted, 1, 0).Some? {
      var u1 := Credit(users, submitted, 1, 0).value;
      CreditKeepsUsers(u1, WithChoice(submitted, verdict), 0, 1);
      if Credit(u1, WithChoice(submitted, verdict), 0, 1).Some? {
        CreditKeepsUsers(Credit(u1, WithChoice(submitted, verdict), 0, 1).value,
            WithChoice(submitted, Other(verdict)), 0, -1);
      }
    }
  }

  lemma CreditKeepsUsers(users: map<UserId, User>, ballots: seq<Ballot>, reviews: nat, reputation: int)
    ensures Credit(users, ballots, reviews, reputation).Some?
            ==> Credit(users, ballots, reviews, reputation).value.Keys == users.Keys
  {
    if ballots != [] {
      CreditKeepsUsers(users, ballots[..|ballots| - 1], reviews, reputation);
    }
  }

  /** The steps that write a verdict. */
  predicate Decides(c: Call) {
    c.WorkerDecide? || c.FinalizeWrite? || c.ReviewWrite?
  }

  predicate WritesVotes(c: Call) {
    c.VoteWrite? || c.AssignInsert?
  }

  /** What no step of a call ever undoes: `a` before, `b` after. */
  ghost predicate KeepsProof(a: Proof, b: Proof) {
    && b.submitter == a.submitter
    && b.task == a.task
    && a.verifications <= b.verifications
    && (Decided(a.status) ==> Decided(b.status))
  }

  /** A step of a call touches at most the proof of that call, and creates and deletes no row of another kind. */
  ghost predicate Touches(s: Store, s': Store, c: Call) {
    && s'.users.Keys == s.users.Keys
    && s'.tasks.Keys == s.tasks.Keys
    && s'.claims == s.claims
    && s'.proofs.Keys == s.proofs.Keys
    && (forall p :: p in s.proofs && p != c.proof ==> s'.proofs[p] == s.proofs[p])
    && (c.proof in s.proofs ==>
          && KeepsProof(s.proofs[c.proof], s'.proofs[c.proof])
          && (!WritesVotes(c) ==> s'.proofs[c.proof].votes == s.proofs[c.proof].votes))
  }

  /** Beyond that, a step without a verdict counts no completion, pays and notifies no one. */
  ghost predicate SameVerdict(a: Proof, b: Proof) {
    && b.task == a.task
    && b.hasPayout == a.hasPayout
    && b.notified == a.notified
    && (Decided(a.status) <==> Decided(b.status))
    && (Decided(a.status) ==> b.status == a.status)
  }

  ghost predicate NoVerdict(s: Store, s': Store) {
    && s'.tasks == s.tasks
    && s'.proofs.Keys == s.proofs.Keys
    && (forall p :: p in s.proofs ==> SameVerdict(s.proofs[p], s'.proofs[p]))
  }

  lemma VerdictTouches(s: Store, s1: Store, c: Call, approved: bool, v: Verification)
    requires s1.proofs == s.proofs && s1.users.Keys == s.users.Keys && s1.tasks.Keys == s.tasks.Keys
        && s1.claims == s.claims
    ensures Touches(s, Settle(s, WriteVerdict(s1, c.proof, approved, v)), c)
  {}

  /** The rows after are those before, perhaps with this one more. */
  predicate AddsOnly(before: seq<Verification>, after: seq<Verification>, v: Verification) {
    after == before || after == before + [v]
  }

  lemma VerdictAdds(s: Store, s1: Store, id: ProofId, approved: bool, v: Verification, p: ProofId)
    requires s1.proofs == s.proofs && p in s.proofs
    ensures var s' := Settle(s, WriteVerdict(s1, id, approved, v));
            p in s'.proofs && AddsOnly(s.proofs[p].verifications, s'.proofs[p].verifications, v)
  {}

  /** The verification row that a deciding step writes, if it writes one. */
  function VerdictOf(s: Store, c: Call): Verification
    requires Decides(c)
  {
    match c
    case WorkerDecide(_, t, w) => VerdictRow(s, t, Auto, w)
    case FinalizeWrite(_, t, w, _) => VerdictRow(s, t, Quorum, w)
    case ReviewWrite(_, t, admin, w) => VerdictRow(s, t, Admin(admin), w)
  }

  lemma DecisionAdds(cfg: Config, s: Store, c: Call, o: Oracle, p: ProofId)
    requires Decides(c) && p in s.proofs
    ensures var s' := Advance(cfg, s, c, o).0;
            p in s'.proofs && AddsOnly(s.proofs[p].verifications, s'.proofs[p].verifications, VerdictOf(s, c))
  {
    match c
    case WorkerDecide(id, t, w) =>
      VerdictAdds(s, AfterSlot(s, t, w), id, FinallyApproved(s, t, w), VerdictOf(s, c), p);
    case ReviewWrite(id, t, _, w) =>
      VerdictAdds(s, AfterSlot(s, t, w), id, FinallyApproved(s, t, w), VerdictOf(s, c), p);
    case FinalizeWrite(id, t, w, submitted) =>
      var users := Reward(s.users, submitted, w);
      if users.Some? {
        VerdictAdds(s, AfterSlot(s, t, w).(users := users.value), id, FinallyApproved(s, t, w), VerdictOf(s, c), p);
      }
  }

  lemma SlotTouches(s: Store, c: Call, t: TaskId, choice: Choice)
    ensures Touches(s, AfterSlot(s, t, choice), c)
    ensures AfterSlot(s, t, choice).(tasks := s.tasks) == s
  {}

  lemma FinalizeTouches(s: Store, c: Call)
    requires c.FinalizeWrite?
    ensures Touches(s, Settle(s, FinalizeTx(s, c.proof, c.task, c.winner, c.submitted)), c)
  {
    SlotTouches(s, c, c.task, c.winner);
    RewardKeepsUsers(s.users, c.submitted, c.winner);
    var users := Reward(s.users, c.submitted, c.winner);
    if users.Some? {
      VerdictTouches(s, AfterSlot(s, c.task, c.winner).(users := users.value), c,
                     FinallyApproved(s, c.task, c.winner), VerdictRow(s, c.task, Quorum, c.winner));
    }
  }

  lemma DecisionTouches(cfg: Config, s: Store, c: Call, o: Oracle)
    requires Decides(c)
    ensures Touches(s, Advance(cfg, s, c, o).0, c)
  {
    match c
    case WorkerDecide(p, t, w) =>
      SlotTouches(s, c, t, w);
      VerdictTouches(s, AfterSlot(s, t, w), c, FinallyApproved(s, t, w), VerdictRow(s, t, Auto, w));
    case ReviewWrite(p, t, admin, w) =>
      SlotTouches(s, c, t, w);
      VerdictTouches(s, AfterSlot(s, t, w), c, FinallyApproved(s, t, w), VerdictRow(s, t, Admin(admin), w));
    case FinalizeWrite(p, t, w, submitted) => FinalizeTouches(s, c);
  }

  lemma EditTouches(s: Store, c: Call, users: map<UserId, User>, q: Proof)
    requires c.proof in s.proofs && users.Keys == s.users.Keys
    requires KeepsProof(s.proofs[c.proof], q) && SameVerdict(s.proofs[c.proof], q)
    requires WritesVotes(c) || q.votes == s.proofs[c.proof].votes
    ensures var s' := s.(users := users, proofs := s.proofs[c.proof := q]); Touches(s, s', c) && NoVerdict(s, s')
  {}

  lemma NoQuorumTouches(s: Store, c: Call)
    requires c.NoQuorumWrite?
    ensures Quietly(s, Settle(s, NoQuorumTx(s, c.proof, c.submitted)), c)
  {
    CreditKeepsUsers(s.users, c.submitted, 1, 0);
    var users := Credit(s.users, c.submitted, 1, 0);
    if users.Some? && c.proof in s.proofs {
      var p := s.proofs[c.proof];
      EditTouches(s, c, users.value, p.(verifications := p.verifications + [NO_QUORUM_ROW]));
    }
  }

  lemma EscalateTouches(s: Store, c: Call)
    ensures Quietly(s, EscalateTx(s, c.proof), c)
  {
    if c.proof in s.proofs {
      EditTouches(s, c, s.users, EscalateTx(s, c.proof).proofs[c.proof]);
    }
  }

  /** A step's effect on the rows, and that it carries no verdict. */
  ghost predicate Quietly(s: Store, s': Store, c: Call) {
    Touches(s, s', c) && NoVerdict(s, s')
  }

  lemma BeginTouches(s: Store, c: Call)
    ensures Quietly(s, BeginVerify(s, c.proof), c)
  {
    if c.proof in s.proofs && s.proofs[c.proof].status.PENDING? {
      EditTouches(s, c, s.users, s.proofs[c.proof].(status := VERIFYING));
    }
  }

  lemma RecordTouches(s: Store, c: Call)
    ensures Quietly(s, Settle(s, RecordInconclusiveTx(s, c.proof)), c)
  {
    if c.proof in s.proofs {
      var p := s.proofs[c.proof];
      EditTouches(s, c, s.users, p.(verifications := p.verifications + [Verification(Auto, Inconclusive, Plain)]));
    }
  }

  lemma AssignTouches(s: Store, c: Call)
    requires c.AssignInsert?
    ensures Quietly(s, Settle(s, AssignTx(s, c.proof, c.chosen)), c)
  {
    if c.proof in s.proofs {
      var p := s.proofs[c.proof];
      EditTouches(s, c, s.users, p.(votes := p.votes + NewRows(c.chosen)));
    }
  }

  lemma VoteTouches(s: Store, c: Call)
    requires c.VoteWrite?
    ensures Quietly(s, Settle(s, VoteTx(s, c.proof, c.validator, c.choice)), c)
  {
    if c.proof in s.proofs {
      var p := s.proofs[c.proof];
      EditTouches(s, c, s.users, p.(votes := p.votes[c.validator := Some(c.choice)]));
    }
  }

  /** The store after a step that writes no verdict. */
  function Written(s: Store, c: Call): Store {
    match c
    case WorkerStart(p, _) => BeginVerify(s, p)
    case WorkerRecord(p) => Settle(s, RecordInconclusiveTx(s, p))
    case WorkerEscalate(p) => EscalateTx(s, p)
    case AssignInsert(p, _, chosen) => Settle(s, AssignTx(s, p, chosen))
    case VoteWrite(p, v, choice) => Settle(s, VoteTx(s, p, v, choice))
    case NoQuorumWrite(p, submitted) => Settle(s, NoQuorumTx(s, p, submitted))
    case _ => s
  }

  lemma OtherStepWrites(cfg: Config, s: Store, c: Call, o: Oracle)
    requires !Decides(c)
    ensures Advance(cfg, s, c, o).0 == Written(s, c)
  {}

  lemma WrittenTouches(s: Store, c: Call)
    ensures Quietly(s, Written(s, c), c)
  {
    match c
    case WorkerStart(_, _) => BeginTouches(s, c);
    case WorkerRecord(_) => RecordTouches(s, c);
    case WorkerEscalate(_) => EscalateTouches(s, c);
    case AssignInsert(_, _, _) => AssignTouches(s, c);
    case VoteWrite(_, _, _) => VoteTouches(s, c);
    case NoQuorumWrite(_, _) => NoQuorumTouches(s, c);
    case _ =>
  }

  lemma OtherStepTouches(cfg: Config, s: Store, c: Call, o: Oracle)
    requires !Decides(c)
    ensures Touches(s, Advance(cfg, s, c, o).0, c)
    ensures NoVerdict(s, Advance(cfg, s, c, o).0)
  {
    OtherStepWrites(cfg, s, c, o);
    WrittenTouches(s, c);
  }

  lemma AdvanceTouches(cfg: Config, s: Store, c: Call, o: Oracle)
    ensures Touches(s, Advance(cfg, s, c, o).0, c)
  {
    if Decides(c) {
      DecisionTouches(cfg, s, c, o);
    } else {
      OtherStepTouches(cfg, s, c, o);
    }
  }

  lemma AdvanceGrows(cfg: Config, s: Store, c: Call, o: Oracle)
    ensures Grows(s, Advance(cfg, s, c, o).0, {})
  {
    AdvanceTouches(cfg, s, c, o);
  }

  lemma ApplyGrows(x: System, e: Event)
    requires Enabled(x, e)
    ensures Grows(x.store, Apply(x, e).store, if e.Submit? then {e.proof} else {})
    ensures x.issued <= Apply(x, e).issued
  {
    if e.Step? {
      AdvanceGrows(x.cfg, x.store, x.calls[e.id], e.oracle);
    }
  }

  // ---- what each kind of row and call satisfies ----

  predicate IsVerdict(v: Verification) {
    !v.verdict.Inconclusive?
  }

  /** Written by a status-guarded path: quorum or admin. */
  predicate IsGuarded(v: Verification) {
    IsVerdict(v) && !v.verifier.Auto?
  }

  function Verdicts(rows: seq<Verification>): seq<Verification> {
    if rows == [] then []
    else
      var last := rows[|rows| - 1];
      Verdicts(rows[..|rows| - 1]) + (if IsVerdict(last) then [last] else [])
  }

  function Approvals(notified: seq<bool>): nat {
    if notified == [] then 0
    else Approvals(notified[..|notified| - 1]) + (if notified[|notified| - 1] then 1 else 0)
  }

  /** How often the proof was recorded as escalated for lack of validators. */
  function Markers(rows: seq<Verification>): nat {
    if rows == [] then 0
    else Markers(rows[..|rows| - 1]) + (if rows[|rows| - 1] == NO_VALIDATORS_ROW then 1 else 0)
  }

  /** One proof: its status, verdict rows, notifications and payout tell the same story. */
  ghost predicate ProofOk(p: Proof) {
    && p.submitter !in p.votes
    && |Verdicts(p.verifications)| == |p.notified|
    && (Decided(p.status) <==> p.notified != [])
    && (p.notified != [] ==> (p.status.APPROVED? <==> p.notified[|p.notified| - 1]))
    && Approvals(p.notified) == (if p.hasPayout then 1 else 0)
    && (forall i :: 0 < i < |Verdicts(p.verifications)| ==> !IsGuarded(Verdicts(p.verifications)[i]))
    && Markers(p.verifications) <= 1
  }

  predicate UserOk(u: User) {
    0 - u.reviewCount <= u.validatorReputation <= u.reviewCount
  }

  ghost predicate StoreOk(s: Store) {
    && (forall t :: t in s.tasks ==> s.tasks[t].maxCompletions != Some(0))
    && (forall p :: p in s.proofs ==> ProofOk(s.proofs[p]))
    && (forall p :: p in s.proofs ==> s.proofs[p].task in s.tasks)
    && (forall p :: p in s.proofs ==> s.proofs[p].votes.Keys <= s.users.Keys)
    && (forall u :: u in s.users ==> UserOk(s.users[u]))
  }

  ghost predicate BallotsOk(s: Store, submitted: seq<Ballot>) {
    DistinctVoters(submitted) && Voters(submitted) <= s.users.Keys
  }

  /** The values a suspended call carries still fit the rows they were read from. */
  ghost predicate CallOk(s: Store, issued: set<ProofId>, c: Call) {
    match c
    case WorkerJudge(p, t) => p in issued && (p in s.proofs ==> s.proofs[p].task == t)
    case WorkerDecide(p, t, _) => p in issued && (p in s.proofs ==> s.proofs[p].task == t)
    case AssignCount(p, u) => p in issued && (p in s.proofs ==> s.proofs[p].submitter == u)
    case AssignPick(p, u) => p in issued && (p in s.proofs ==> s.proofs[p].submitter == u)
    case AssignInsert(p, u, chosen) =>
      && p in issued
      && (p in s.proofs ==> s.proofs[p].submitter == u)
      && (forall v :: v in chosen ==> v in s.users && v != u)
    case FinalizeRead(_, _, submitted) => BallotsOk(s, submitted)
    case FinalizeWrite(p, t, _, submitted) =>
      p in issued && (p in s.proofs ==> s.proofs[p].task == t) && BallotsOk(s, submitted)
    case NoQuorumWrite(_, submitted) => BallotsOk(s, submitted)
    case ReviewWrite(p, t, _, _) => p in issued && (p in s.proofs ==> s.proofs[p].task == t)
    case _ => true
  }

  ghost function PayoutRows(proofs: map<ProofId, Proof>, t: TaskId): set<ProofId> {
    set p | p in proofs && proofs[p].task == t && proofs[p].hasPayout
  }

  ghost function ApprovedProofs(proofs: map<ProofId, Proof>, t: TaskId): set<ProofId> {
    set p | p in proofs && proofs[p].task == t && proofs[p].status.APPROVED?
  }

  /** Every completion counted on a task is a payout row or a leaked slot. */
  ghost predicate CountsOk(s: Store, leaked: multiset<TaskId>) {
    && (forall t :: t in s.tasks ==> s.tasks[t].completedCount == |PayoutRows(s.proofs, t)| + leaked[t])
    && (forall t :: t in leaked ==> t in s.tasks)
  }

  /** A task has lost its capacity invariant exactly if its last edit took it away. */
  ghost predicate CapacityOk(s: Store, skewed: set<TaskId>) {
    && skewed <= s.tasks.Keys
    && (forall t :: t in s.tasks ==> (TaskOk(s.tasks[t]) <==> t !in skewed))
  }

  ghost predicate Inv(x: System) {
    && StoreOk(x.store)
    && CapacityOk(x.store, x.skewed)
    && CountsOk(x.store, x.leaked)
    && x.store.proofs.Keys <= x.issued
    && (forall id :: id in x.calls ==> CallOk(x.store, x.issued, x.calls[id]))
  }

  // ---- single proofs ----

  lemma VerdictsSnoc(rows: seq<Verification>, v: Verification)
    ensures Verdicts(rows + [v]) == Verdicts(rows) + (if IsVerdict(v) then [v] else [])
  {
    assert (rows + [v])[..|rows|] == rows;
  }

  lemma MarkersSnoc(rows: seq<Verification>, v: Verification)
    ensures Markers(rows + [v]) == Markers(rows) + (if v == NO_VALIDATORS_ROW then 1 else 0)
  {
    assert (rows + [v])[..|rows|] == rows;
  }

  lemma {:induction false} UnmarkedRows(rows: seq<Verification>)
    ensures Markers(rows) == 0 <==> NO_VALIDATORS_ROW !in rows
  {
    if rows != [] {
      UnmarkedRows(rows[..|rows| - 1]);
      assert rows == rows[..|rows| - 1] + [rows[|rows| - 1]];
    }
  }

  lemma ApprovalsSnoc(notified: seq<bool>, b: bool)
    ensures Approvals(notified + [b]) == Approvals(notified) + (if b then 1 else 0)
  {
    assert (notified + [b])[..|notified|] == notified;
  }

  /** Writing a verdict keeps the proof consistent, provided a guarded writer finds it undecided. */
  lemma VerdictKeepsProof(p: Proof, approved: bool, v: Verification)
    requires ProofOk(p) && IsVerdict(v)
    requires IsGuarded(v) ==> Awaiting(p.status)
    requires approved ==> !p.hasPayout
    ensures ProofOk(WithVerdict(p, approved, v))
  {
    VerdictsSnoc(p.verifications, v);
    MarkersSnoc(p.verifications, v);
    ApprovalsSnoc(p.notified, approved);
    if !p.hasPayout && p.notified != [] { }
  }

  lemma ApprovalBoundsLength(notified: seq<bool>)
    ensures Approvals(notified) <= |notified|
    ensures notified != [] && notified[|notified| - 1] ==> Approvals(notified) > 0
  {
    if notified != [] {
      ApprovalBoundsLength(notified[..|notified| - 1]);
    }
  }

  /** An approved proof has its payout row, and an undecided one has none. */
  lemma PayoutMatchesStatus(p: Proof)
    requires ProofOk(p)
    ensures p.status.APPROVED? ==> p.hasPayout
    ensures p.hasPayout ==> Decided(p.status)
  {
    ApprovalBoundsLength(p.notified);
  }

  lemma NoteKeepsProof(p: Proof, v: Verification)
    requires ProofOk(p) && !IsVerdict(v)
    requires v == NO_VALIDATORS_ROW ==> v !in p.verifications
    ensures ProofOk(p.(verifications := p.verifications + [v]))
  {
    VerdictsSnoc(p.verifications, v);
    MarkersSnoc(p.verifications, v);
    UnmarkedRows(p.verifications);
  }

  // ---- StoreOk, transaction by transaction ----

  lemma SlotKeepsStore(s: Store, t: TaskId, choice: Choice)
    requires StoreOk(s)
    ensures StoreOk(AfterSlot(s, t, choice))
    ensures AfterSlot(s, t, choice).tasks.Keys == s.tasks.Keys
  {}

  lemma PutProofKeepsStore(s: Store, id: ProofId, p: Proof)
    requires StoreOk(s) && id in s.proofs && ProofOk(p)
    requires p.task == s.proofs[id].task && p.votes.Keys <= s.users.Keys
    ensures StoreOk(s.(proofs := s.proofs[id := p]))
  {}

  lemma VerdictKeepsStore(s: Store, id: ProofId, approved: bool, v: Verification)
    requires StoreOk(s) && IsVerdict(v)
    requires IsGuarded(v) ==> id in s.proofs && Awaiting(s.proofs[id].status)
    ensures StoreOk(Settle(s, WriteVerdict(s, id, approved, v)))
  {
    if WriteVerdict(s, id, approved, v).Commit? {
      VerdictKeepsProof(s.proofs[id], approved, v);
      PutProofKeepsStore(s, id, WithVerdict(s.proofs[id], approved, v));
    }
  }

  lemma UsersKeepStore(s: Store, users: map<UserId, User>)
    requires StoreOk(s) && users.Keys == s.users.Keys
    requires forall u :: u in users ==> UserOk(users[u])
    ensures StoreOk(s.(users := users))
  {}

  lemma FinalizeKeepsStore(s: Store, id: ProofId, t: TaskId, verdict: Choice, submitted: seq<Ballot>)
    requires StoreOk(s) && BallotsOk(s, submitted)
    ensures StoreOk(Settle(s, FinalizeTx(s, id, t, verdict, submitted)))
  {
    SlotKeepsStore(s, t, verdict);
    if id in s.proofs && Awaiting(s.proofs[id].status) {
      RewardPointwise(s.users, submitted, verdict);
      var users := Reward(s.users, submitted, verdict).value;
      forall u | u in users
        ensures UserOk(users[u])
      {
        RewardedOk(s.users[u], submitted, u, verdict);
      }
      var s1 := AfterSlot(s, t, verdict);
      UsersKeepStore(s1, users);
      VerdictKeepsStore(s1.(users := users), id, FinallyApproved(s, t, verdict), VerdictRow(s, t, Quorum, verdict));
    }
  }

  lemma RewardedOk(u: User, ballots: seq<Ballot>, id: UserId, verdict: Choice)
    requires UserOk(u) && DistinctVoters(ballots)
    ensures UserOk(Rewarded(u, ballots, id, verdict))
  {
    ChoiceVotersWithin(ballots, verdict);
    ChoiceVotersWithin(ballots, Other(verdict));
    if id in Voters(ballots) {
      var i :| 0 <= i < |ballots| && ballots[i].validator == id;
      VoterChoice(ballots, i, verdict);
      VoterChoice(ballots, i, Other(verdict));
    }
  }

  lemma NoQuorumKeepsStore(s: Store, id: ProofId, submitted: seq<Ballot>)
    requires StoreOk(s) && BallotsOk(s, submitted)
    ensures StoreOk(Settle(s, NoQuorumTx(s, id, submitted)))
  {
    if id in s.proofs {
      CreditEffect(s.users, submitted, 1, 0);
      var users := Credit(s.users, submitted, 1, 0).value;
      UsersKeepStore(s, users);
      var row := NO_QUORUM_ROW;
      NoteKeepsProof(s.proofs[id], row);
      PutProofKeepsStore(s.(users := users), id, s.proofs[id].(verifications := s.proofs[id].verifications + [row]));
    }
  }

  lemma ReviewKeepsStore(s: Store, id: ProofId, t: TaskId, admin: UserId, choice: Choice)
    requires StoreOk(s)
    ensures StoreOk(Settle(s, ReviewTx(s, id, t, admin, choice)))
  {
    SlotKeepsStore(s, t, choice);
    if id in s.proofs && Awaiting(s.proofs[id].status) {
      VerdictKeepsStore(AfterSlot(s, t, choice), id, FinallyApproved(s, t, choice),
          VerdictRow(s, t, Admin(admin), choice));
    }
  }

  lemma EscalateKeepsStore(s: Store, id: ProofId)
    requires StoreOk(s)
    ensures StoreOk(EscalateTx(s, id))
  {
    if id in s.proofs {
      var p := s.proofs[id];
      var q := if p.status.VERIFYING? then p.(status := PENDING) else p;
      assert ProofOk(q);
      if NO_VALIDATORS_ROW in p.verifications || !p.status.VERIFYING? {
        PutProofKeepsStore(s, id, q);
      } else {
        NoteKeepsProof(q, NO_VALIDATORS_ROW);
        PutProofKeepsStore(s, id, q.(verifications := q.verifications + [NO_VALIDATORS_ROW]));
      }
    }
  }

  lemma AssignKeepsStore(s: Store, id: ProofId, chosen: seq<UserId>)
    requires StoreOk(s)
    requires id in s.proofs ==> forall v :: v in chosen ==> v in s.users && v != s.proofs[id].submitter
    ensures StoreOk(Settle(s, AssignTx(s, id, chosen)))
  {
    if AssignTx(s, id, chosen).Commit? {
      var p := s.proofs[id];
      var q := p.(votes := p.votes + NewRows(chosen));
      assert q.votes.Keys <= s.users.Keys;
      PutProofKeepsStore(s, id, q);
    }
  }

  lemma WorkerKeepsStore(s: Store, id: ProofId, t: TaskId, choice: Choice)
    requires StoreOk(s)
    ensures StoreOk(Settle(s, WorkerVerdictTx(s, id, t, choice)))
  {
    SlotKeepsStore(s, t, choice);
    VerdictKeepsStore(AfterSlot(s, t, choice), id, FinallyApproved(s, t, choice), VerdictRow(s, t, Auto, choice));
  }

  lemma AdvanceKeepsStore(cfg: Config, s: Store, issued: set<ProofId>, c: Call, o: Oracle)
    requires StoreOk(s) && CallOk(s, issued, c)
    ensures StoreOk(Advance(cfg, s, c, o).0)
  {
    match c
    case WorkerStart(p, _) =>
      if p in s.proofs && s.proofs[p].status.PENDING? {
        PutProofKeepsStore(s, p, s.proofs[p].(status := VERIFYING));
      }
    case WorkerDecide(p, t, choice) => WorkerKeepsStore(s, p, t, choice);
    case AssignInsert(p, _, chosen) => AssignKeepsStore(s, p, chosen);
    case WorkerRecord(p) =>
      if p in s.proofs {
        var row := Verification(Auto, Inconclusive, Plain);
        NoteKeepsProof(s.proofs[p], row);
        PutProofKeepsStore(s, p, s.proofs[p].(verifications := s.proofs[p].verifications + [row]));
      }
    case WorkerEscalate(p) => EscalateKeepsStore(s, p);
    case VoteWrite(p, v, choice) =>
      if VoteTx(s, p, v, choice).Commit? {
        PutProofKeepsStore(s, p, s.proofs[p].(votes := s.proofs[p].votes[v := Some(choice)]));
      }
    case FinalizeWrite(p, t, w, submitted) => FinalizeKeepsStore(s, p, t, w, submitted);
    case NoQuorumWrite(p, submitted) => NoQuorumKeepsStore(s, p, submitted);
    case ReviewWrite(p, t, admin, choice) => ReviewKeepsStore(s, p, t, admin, choice);
    case _ =>
  }

  // ---- counting completions ----

  lemma PutKeepsPayoutRows(proofs: map<ProofId, Proof>, id: ProofId, p: Proof, t: TaskId)
    requires id in proofs && p.task == proofs[id].task
    requires p.hasPayout == proofs[id].hasPayout || t != p.task
    ensures PayoutRows(proofs[id := p], t) == PayoutRows(proofs, t)
  {}

  lemma PutAddsPayoutRow(proofs: map<ProofId, Proof>, id: ProofId, p: Proof)
    requires id in proofs && p.task == proofs[id].task && p.hasPayout && !proofs[id].hasPayout
    ensures |PayoutRows(proofs[id := p], p.task)| == |PayoutRows(proofs, p.task)| + 1
  {
    assert PayoutRows(proofs[id := p], p.task) == PayoutRows(proofs, p.task) + {id};
  }

  /** The slot claim and the verdict write together: the count and the payout rows move as one. */
  lemma DecisionKeepsCounts(s: Store, leaked: multiset<TaskId>, id: ProofId, t: TaskId, choice: Choice, v: Verification)
    requires CountsOk(s, leaked)
    requires id in s.proofs ==> s.proofs[id].task == t
    ensures CountsOk(Settle(s, WriteVerdict(AfterSlot(s, t, choice), id, FinallyApproved(s, t, choice), v)), leaked)
  {
    var approved := FinallyApproved(s, t, choice);
    var s1 := AfterSlot(s, t, choice);
    if WriteVerdict(s1, id, approved, v).Commit? {
      var p := WithVerdict(s.proofs[id], approved, v);
      forall u | u in s.tasks
        ensures s1.tasks[u].completedCount == |PayoutRows(s.proofs[id := p], u)| + leaked[u]
      {
        if approved && u == t && !s.proofs[id].hasPayout {
          PutAddsPayoutRow(s.proofs, id, p);
        } else {
          PutKeepsPayoutRows(s.proofs, id, p, u);
        }
      }
    }
  }

  /** A committed slot without a payout keeps the count balanced only through the leak record. */
  lemma LeakKeepsCounts(s: Store, leaked: multiset<TaskId>, t: TaskId)
    requires CountsOk(s, leaked) && SlotFree(s.tasks, t)
    ensures CountsOk(s.(tasks := ClaimSlot(s.tasks, t)), leaked + multiset{t})
  {}

  lemma CountsIgnoreUsers(s: Store, leaked: multiset<TaskId>, users: map<UserId, User>)
    ensures CountsOk(s.(users := users), leaked) <==> CountsOk(s, leaked)
  {}

  lemma ReviewKeepsCounts(s: Store, leaked: multiset<TaskId>, c: Call)
    requires CountsOk(s, leaked) && c.ReviewWrite?
    requires c.proof in s.proofs ==> s.proofs[c.proof].task == c.task
    ensures CountsOk(Settle(s, ReviewTx(s, c.proof, c.task, c.admin, c.choice)),
                     if LeaksSlot(s, c) then leaked + multiset{c.task} else leaked)
  {
    if c.proof in s.proofs && Awaiting(s.proofs[c.proof].status) {
      DecisionKeepsCounts(s, leaked, c.proof, c.task, c.choice, VerdictRow(s, c.task, Admin(c.admin), c.choice));
    } else if LeaksSlot(s, c) {
      LeakKeepsCounts(s, leaked, c.task);
    } else {
      assert AfterSlot(s, c.task, c.choice) == s;
    }
  }

  lemma FinalizeKeepsCounts(s: Store, leaked: multiset<TaskId>, c: Call)
    requires CountsOk(s, leaked) && c.FinalizeWrite?
    requires c.proof in s.proofs ==> s.proofs[c.proof].task == c.task
    ensures CountsOk(Settle(s, FinalizeTx(s, c.proof, c.task, c.winner, c.submitted)),
                     if LeaksSlot(s, c) then leaked + multiset{c.task} else leaked)
  {
    if c.proof in s.proofs && Awaiting(s.proofs[c.proof].status) {
      var users := Reward(s.users, c.submitted, c.winner);
      if users.Some? {
        var su := s.(users := users.value);
        CountsIgnoreUsers(s, leaked, users.value);
        assert AfterSlot(su, c.task, c.winner) == AfterSlot(s, c.task, c.winner).(users := users.value);
        DecisionKeepsCounts(su, leaked, c.proof, c.task, c.winner, VerdictRow(s, c.task, Quorum, c.winner));
      }
    } else if LeaksSlot(s, c) {
      LeakKeepsCounts(s, leaked, c.task);
    } else {
      assert AfterSlot(s, c.task, c.winner) == s;
    }
  }

  lemma NoVerdictKeepsCounts(s: Store, s': Store, leaked: multiset<TaskId>)
    requires NoVerdict(s, s') && CountsOk(s, leaked)
    ensures CountsOk(s', leaked)
  {
    forall t | t in s.tasks
      ensures PayoutRows(s'.proofs, t) == PayoutRows(s.proofs, t)
    {
    }
  }

  lemma AdvanceKeepsCounts(cfg: Config, s: Store, issued: set<ProofId>, leaked: multiset<TaskId>, c: Call, o: Oracle)
    requires CountsOk(s, leaked) && CallOk(s, issued, c)
    ensures CountsOk(Advance(cfg, s, c, o).0, if LeaksSlot(s, c) then leaked + multiset{c.task} else leaked)
  {
    if c.WorkerDecide? {
      DecisionKeepsCounts(s, leaked, c.proof, c.task, c.choice, VerdictRow(s, c.task, Auto, c.choice));
    } else if c.FinalizeWrite? {
      FinalizeKeepsCounts(s, leaked, c);
    } else if c.ReviewWrite? {
      ReviewKeepsCounts(s, leaked, c);
    } else {
      OtherStepTouches(cfg, s, c, o);
      NoVerdictKeepsCounts(s, Advance(cfg, s, c, o).0, leaked);
    }
  }

  // ---- calls ----

  lemma AssignmentKeepsCall(cfg: Config, s: Store, issued: set<ProofId>, c: Call, o: Oracle)
    requires CallOk(s, issued, c) && OracleOk(cfg, s, c, o)
    requires c.AssignRead? || c.AssignCount? || c.AssignPick? || c.AssignInsert?
    requires s.proofs.Keys <= issued
    ensures var (s', next) := Advance(cfg, s, c, o); next.Some? ==> CallOk(s', issued, next.value)
  {
    if c.AssignPick? {
      forall v | v in o.rows
        ensures v in s.users && v != c.submitter
      {
        var i :| 0 <= i < |o.rows| && o.rows[i] == v;
      }
    }
  }

  lemma VoteKeepsCall(cfg: Config, s: Store, issued: set<ProofId>, c: Call, o: Oracle)
    requires StoreOk(s) && CallOk(s, issued, c) && OracleOk(cfg, s, c, o)
    requires c.VoteSnapshot? || c.FinalizeRead?
    requires s.proofs.Keys <= issued
    ensures var (s', next) := Advance(cfg, s, c, o); next.Some? ==> CallOk(s', issued, next.value)
  {
    if c.VoteSnapshot? && c.proof in s.proofs {
      SnapshotBallots(s.proofs[c.proof].votes, o.rows);
    }
  }

  /** A step leaves its own call with values that fit the rows. */
  lemma AdvanceKeepsCall(cfg: Config, s: Store, issued: set<ProofId>, c: Call, o: Oracle)
    requires StoreOk(s) && CallOk(s, issued, c) && OracleOk(cfg, s, c, o)
    requires s.proofs.Keys <= issued
    ensures var (s', next) := Advance(cfg, s, c, o); next.Some? ==> CallOk(s', issued, next.value)
  {
    if c.AssignRead? || c.AssignCount? || c.AssignPick? || c.AssignInsert? {
      AssignmentKeepsCall(cfg, s, issued, c, o);
    } else if c.VoteSnapshot? || c.FinalizeRead? {
      VoteKeepsCall(cfg, s, issued, c, o);
    }
  }

  lemma GrowthKeepsCall(s: Store, s': Store, issued: set<ProofId>, issued': set<ProofId>, added: set<ProofId>, c: Call)
    requires Grows(s, s', added) && issued <= issued' && added !! issued
    requires CallOk(s, issued, c)
    ensures CallOk(s', issued', c)
  {}

  lemma EmptyInv(cfg: Config)
    ensures Inv(Empty(cfg))
  {}

  lemma AddProofKeepsStore(s: Store, id: ProofId, p: Proof)
    requires StoreOk(s) && id !in s.proofs && ProofOk(p)
    requires p.task in s.tasks && p.votes.Keys <= s.users.Keys
    ensures StoreOk(s.(proofs := s.proofs[id := p]))
  {}

  lemma AddProofKeepsPayoutRows(proofs: map<ProofId, Proof>, id: ProofId, p: Proof, t: TaskId)
    requires id !in proofs && !p.hasPayout
    ensures PayoutRows(proofs[id := p], t) == PayoutRows(proofs, t)
  {}

  lemma SubmitKeepsStore(s: Store, leaked: multiset<TaskId>, p: ProofId, t: TaskId, u: UserId, now: int)
    requires StoreOk(s) && CountsOk(s, leaked) && p !in s.proofs && u in s.users
    ensures StoreOk(SubmitTx(s, p, t, u, now)) && CountsOk(SubmitTx(s, p, t, u, now), leaked)
  {
    if CheckEligibility(s, t, u, now).Eligible? {
      var proof := Proof(u, t, PENDING, NO_VOTES, [], [], false);
      AddProofKeepsStore(s, p, proof);
      forall v | v in s.tasks
        ensures PayoutRows(s.proofs[p := proof], v) == PayoutRows(s.proofs, v)
      {
        AddProofKeepsPayoutRows(s.proofs, p, proof, v);
      }
    }
  }

  lemma RollbackKeepsStore(s: Store, leaked: multiset<TaskId>, p: ProofId)
    requires StoreOk(s) && CountsOk(s, leaked)
    ensures StoreOk(Settle(s, RollbackTx(s, p))) && CountsOk(Settle(s, RollbackTx(s, p)), leaked)
  {
    var s' := Settle(s, RollbackTx(s, p));
    forall v | v in s.tasks
      ensures PayoutRows(s'.proofs, v) == PayoutRows(s.proofs, v)
    {
    }
  }

  lemma CreateTaskKeepsStore(s: Store, leaked: multiset<TaskId>, t: TaskId, task: Task)
    requires StoreOk(s) && CountsOk(s, leaked) && t !in s.tasks
    requires task.maxCompletions != Some(0) && task.completedCount == 0
    ensures StoreOk(s.(tasks := s.tasks[t := task])) && CountsOk(s.(tasks := s.tasks[t := task]), leaked)
  {
    assert PayoutRows(s.proofs, t) == {};
    assert t !in leaked;
  }

  lemma EditKeepsStore(s: Store, leaked: multiset<TaskId>, t: TaskId, task: Task)
    requires StoreOk(s) && CountsOk(s, leaked) && t in s.tasks
    requires task.maxCompletions != Some(0) && task.completedCount == s.tasks[t].completedCount
    ensures StoreOk(s.(tasks := s.tasks[t := task])) && CountsOk(s.(tasks := s.tasks[t := task]), leaked)
  {}

  lemma SlotKeepsCapacity(tasks: map<TaskId, Task>, claimed: TaskId, t: TaskId)
    requires t in tasks
    ensures t in ClaimSlot(tasks, claimed) && (TaskOk(ClaimSlot(tasks, claimed)[t]) <==> TaskOk(tasks[t]))
  {}

  lemma DecisionClaims(cfg: Config, s: Store, c: Call, o: Oracle)
    requires Decides(c)
    ensures var after := Advance(cfg, s, c, o).0.tasks; after == s.tasks || after == ClaimSlot(s.tasks, c.task)
  {}

  /** No step of a call gives or takes a task's capacity invariant. */
  lemma AdvanceKeepsTasks(cfg: Config, s: Store, c: Call, o: Oracle, t: TaskId)
    requires t in s.tasks
    ensures t in Advance(cfg, s, c, o).0.tasks
    ensures TaskOk(Advance(cfg, s, c, o).0.tasks[t]) <==> TaskOk(s.tasks[t])
  {
    if Decides(c) {
      DecisionClaims(cfg, s, c, o);
      SlotKeepsCapacity(s.tasks, c.task, t);
    } else {
      OtherStepTouches(cfg, s, c, o);
    }
  }

  lemma StepKeepsCapacity(x: System, e: Event)
    requires CapacityOk(x.store, x.skewed) && Enabled(x, e)
    ensures CapacityOk(Apply(x, e).store, Apply(x, e).skewed)
  {
    if e.Step? {
      AdvanceTouches(x.cfg, x.store, x.calls[e.id], e.oracle);
      forall t | t in x.store.tasks
        ensures TaskOk(Apply(x, e).store.tasks[t]) <==> TaskOk(x.store.tasks[t])
      {
        AdvanceKeepsTasks(x.cfg, x.store, x.calls[e.id], e.oracle, t);
      }
    }
  }

  lemma SweepKeepsStore(s: Store, leaked: multiset<TaskId>, now: int)
    requires StoreOk(s) && CountsOk(s, leaked)
    ensures StoreOk(ExpireTasks(s, now)) && CountsOk(ExpireTasks(s, now), leaked)
    ensures StoreOk(ExpireClaims(s, now)) && CountsOk(ExpireClaims(s, now), leaked)
  {}

  lemma EnvironmentKeepsStore(x: System, e: Event)
    requires Inv(x) && Enabled(x, e) && !e.Step?
    ensures StoreOk(Apply(x, e).store) && CountsOk(Apply(x, e).store, Apply(x, e).leaked)
  {
    var s := x.store;
    match e
    case CreateTask(t, max, expiry) => CreateTaskKeepsStore(s, x.leaked, t, Task(ACTIVE, 0, max, expiry));
    case EditTask(t, max, status, expiry) =>
      EditKeepsStore(s, x.leaked, t, EditedTask(s.tasks[t], max, status, expiry));
    case CreateUser(u) => CountsIgnoreUsers(s, x.leaked, s.users[u := User(false, 0, 0)]);
    case SetRole(u, validator) => UsersKeepStore(s, s.users[u := s.users[u].(validator := validator)]);
    case SetClaim(_, _, _) =>
    case Submit(p, t, u, now) => SubmitKeepsStore(s, x.leaked, p, t, u, now);
    case Rollback(p) => RollbackKeepsStore(s, x.leaked, p);
    case SweepTasks(now) => SweepKeepsStore(s, x.leaked, now);
    case SweepClaims(now) => SweepKeepsStore(s, x.leaked, now);
    case _ =>
  }

  lemma StepKeepsStore(x: System, e: Event)
    requires Inv(x) && Enabled(x, e)
    ensures StoreOk(Apply(x, e).store) && CountsOk(Apply(x, e).store, Apply(x, e).leaked)
  {
    if e.Step? {
      var c := x.calls[e.id];
      AdvanceKeepsStore(x.cfg, x.store, x.issued, c, e.oracle);
      AdvanceKeepsCounts(x.cfg, x.store, x.issued, x.leaked, c, e.oracle);
    } else {
      EnvironmentKeepsStore(x, e);
    }
  }

  lemma StepKeepsCall(x: System, e: Event, id: nat)
    requires Inv(x) && Enabled(x, e) && id in Apply(x, e).calls
    ensures CallOk(Apply(x, e).store, Apply(x, e).issued, Apply(x, e).calls[id])
  {
    var y := Apply(x, e);
    if e.Step? && id == e.id {
      AdvanceKeepsCall(x.cfg, x.store, x.issued, x.calls[id], e.oracle);
    } else if id in x.calls && y.calls[id] == x.calls[id] {
      ApplyGrows(x, e);
      GrowthKeepsCall(x.store, y.store, x.issued, y.issued, if e.Submit? then {e.proof} else {}, x.calls[id]);
    }
  }

  lemma StepKeepsInv(x: System, e: Event)
    requires Inv(x) && Enabled(x, e)
    ensures Inv(Apply(x, e))
  {
    StepKeepsStore(x, e);
    StepKeepsCapacity(x, e);
    ApplyGrows(x, e);
    forall id | id in Apply(x, e).calls
      ensures CallOk(Apply(x, e).store, Apply(x, e).issued, Apply(x, e).calls[id])
    {
      StepKeepsCall(x, e, id);
    }
  }

  lemma {:induction false} RunKeepsInv(x: System, es: seq<Event>, y: System)
    requires Inv(x) && Runs(x, es, y)
    ensures Inv(y)
    decreases es
  {
    if es != [] {
      StepKeepsInv(x, es[0]);
      RunKeepsInv(Apply(x, es[0]), es[1..], y);
    }
  }

  lemma ReachableInv(y: System)
    requires Reachable(y)
    ensures Inv(y)
  {
    var cfg, es :| Runs(Empty(cfg), es, y);
    EmptyInv(cfg);
    RunKeepsInv(Empty(cfg), es, y);
  }
}
