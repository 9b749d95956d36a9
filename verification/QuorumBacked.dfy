/**
 * What stands behind a quorum verdict, over whole runs: the snapshot by which the proof was finalized, and how the
 * votes may differ from it later. Also what the voter is told.
 */
module QuorumBacked {
  import opened Common
  import opened Tally
  import opened Store
  import opened Protocol
  import opened ProtocolSafety
  import opened ProtocolTheorems

  ghost function CastVoters(votes: Votes): set<UserId> {
    set v | v in votes && votes[v].Some?
  }

  predicate IsQuorumVerdict(v: Verification) {
    v.verifier.Quorum? && IsVerdict(v)
  }

  /** A snapshot whose winner has its quorum, of voters who are all among the proof's validators with a cast vote. */
  ghost predicate SnapshotOk(x: System, p: ProofId, winner: Choice, submitted: seq<Ballot>) {
    && p in x.issued
    && 0 < Count(submitted, winner) && x.cfg.quorumRequired <= Count(submitted, winner)
    && DistinctVoters(submitted)
    && (p in x.store.proofs ==> Voters(submitted) <= CastVoters(x.store.proofs[p].votes))
  }

  /** The quorum verdicts of a proof are those of its recorded snapshot. */
  ghost predicate ProofBacked(x: System, p: Proof, id: ProofId) {
    forall i :: 0 <= i < |p.verifications| && IsQuorumVerdict(p.verifications[i]) ==>
      id in x.backings && p.verifications[i].verdict == Judged(x.backings[id].winner)
  }

  ghost predicate CallBacked(x: System, c: Call) {
    c.FinalizeRead? || c.FinalizeWrite? ==> SnapshotOk(x, c.proof, c.winner, c.submitted)
  }

  ghost predicate AllBacked(x: System) {
    && (forall p :: p in x.store.proofs ==> ProofBacked(x, x.store.proofs[p], p))
    && (forall p :: p in x.backings ==> SnapshotOk(x, p, x.backings[p].winner, x.backings[p].submitted))
    && (forall id :: id in x.calls ==> CallBacked(x, x.calls[id]))
  }

  // ---- snapshots ----

  lemma {:induction false} SubmittedAreCast(votes: Votes, order: seq<UserId>)
    ensures Voters(Submitted(votes, order)) <= CastVoters(votes)
  {
    if order != [] {
      var init := order[..|order| - 1];
      SubmittedAreCast(votes, init);
      forall u | u in Voters(Submitted(votes, order))
        ensures u in CastVoters(votes)
      {
        var b := Submitted(votes, order);
        var i :| 0 <= i < |b| && b[i].validator == u;
        if i < |Submitted(votes, init)| { assert Submitted(votes, init)[i].validator == u; }
      }
    }
  }

  /** A snapshot that leads to a finalization carries a winner with a quorum. */
  lemma SnapshotBacked(x: System, id: nat, o: Oracle)
    requires x.store.proofs.Keys <= x.issued && Enabled(x, Step(id, o)) && x.calls[id].VoteSnapshot?
    ensures Advance(x.cfg, x.store, x.calls[id], o).0 == x.store
    ensures var next := Advance(x.cfg, x.store, x.calls[id], o).1; next.Some? ==> CallBacked(x, next.value)
  {
    var p := x.calls[id].proof;
    if p in x.store.proofs {
      SnapshotBallots(x.store.proofs[p].votes, o.rows);
      SubmittedAreCast(x.store.proofs[p].votes, o.rows);
    }
  }

  /** A read that leads on to the finalization carries the same snapshot. */
  lemma ReadBacked(x: System, id: nat, o: Oracle)
    requires id in x.calls && x.calls[id].FinalizeRead? && CallBacked(x, x.calls[id])
    ensures Advance(x.cfg, x.store, x.calls[id], o).0 == x.store
    ensures var next := Advance(x.cfg, x.store, x.calls[id], o).1; next.Some? ==> CallBacked(x, next.value)
  {}

  /** No other step leads to a finalization. */
  lemma OthersFinalizeNothing(x: System, id: nat, o: Oracle)
    requires id in x.calls && !x.calls[id].VoteSnapshot? && !x.calls[id].FinalizeRead?
    ensures var next := Advance(x.cfg, x.store, x.calls[id], o).1;
            next.Some? ==> !next.value.FinalizeRead? && !next.value.FinalizeWrite?
  {}

  // ---- votes once cast stay cast ----

  lemma VoteKeepsCast(s: Store, id: ProofId, v: UserId, c: Choice)
    requires id in s.proofs
    ensures var s' := Settle(s, VoteTx(s, id, v, c));
            id in s'.proofs && CastVoters(s.proofs[id].votes) <= CastVoters(s'.proofs[id].votes)
  {}

  lemma AssignKeepsCast(s: Store, id: ProofId, chosen: seq<UserId>)
    requires id in s.proofs
    ensures var s' := Settle(s, AssignTx(s, id, chosen));
            id in s'.proofs && CastVoters(s.proofs[id].votes) <= CastVoters(s'.proofs[id].votes)
  {}

  lemma AdvanceKeepsCast(x: System, id: nat, o: Oracle, p: ProofId)
    requires id in x.calls && p in x.store.proofs
    ensures var s' := Advance(x.cfg, x.store, x.calls[id], o).0;
            p in s'.proofs && CastVoters(x.store.proofs[p].votes) <= CastVoters(s'.proofs[p].votes)
  {
    var c := x.calls[id];
    if c.VoteWrite? && c.proof == p {
      VoteKeepsCast(x.store, p, c.validator, c.choice);
    } else if c.AssignInsert? && c.proof == p {
      AssignKeepsCast(x.store, p, c.chosen);
    } else {
      AdvanceTouches(x.cfg, x.store, c, o);
    }
  }

  /** Outside the calls a proof is only added, without verdicts or votes, or removed. */
  lemma EnvironmentKeepsProofs(x: System, e: Event, p: ProofId)
    requires Enabled(x, e) && !e.Step? && p in Apply(x, e).store.proofs && x.store.proofs.Keys <= x.issued
    ensures Apply(x, e).store.proofs[p].verifications == []
            || (p in x.store.proofs && Apply(x, e).store.proofs[p] == x.store.proofs[p])
    ensures p in x.issued ==> p in x.store.proofs && Apply(x, e).store.proofs[p] == x.store.proofs[p]
  {}

  lemma RecordsKept(x: System, e: Event)
    requires Enabled(x, e)
    ensures Apply(x, e).cfg == x.cfg && x.issued <= Apply(x, e).issued
    ensures Apply(x, e).backings
            == if e.Step? && Finalizes(x.store, x.calls[e.id])
               then x.backings[x.calls[e.id].proof := Backing(x.calls[e.id].winner, x.calls[e.id].submitted)]
               else x.backings
  {}

  /** A snapshot stays good, whatever event follows. */
  lemma SnapshotKept(x: System, e: Event, p: ProofId, winner: Choice, submitted: seq<Ballot>)
    requires Enabled(x, e) && x.store.proofs.Keys <= x.issued && SnapshotOk(x, p, winner, submitted)
    ensures SnapshotOk(Apply(x, e), p, winner, submitted)
  {
    RecordsKept(x, e);
    if p in Apply(x, e).store.proofs {
      if e.Step? {
        AdvanceTouches(x.cfg, x.store, x.calls[e.id], e.oracle);
        AdvanceKeepsCast(x, e.id, e.oracle, p);
      } else {
        EnvironmentKeepsProofs(x, e, p);
      }
    }
  }

  // ---- verdict rows ----

  /** Where `after` has a quorum verdict, `before` has the same row. */
  ghost predicate NoNewQuorumVerdict(before: seq<Verification>, after: seq<Verification>) {
    forall i :: 0 <= i < |after| && IsQuorumVerdict(after[i]) ==> i < |before| && before[i] == after[i]
  }

  lemma WrittenAddsNone(s: Store, c: Call, p: ProofId)
    requires p in s.proofs
    ensures p in Written(s, c).proofs
    ensures NoNewQuorumVerdict(s.proofs[p].verifications, Written(s, c).proofs[p].verifications)
  {}

  lemma FinalizeAdds(cfg: Config, s: Store, c: Call, o: Oracle, p: ProofId)
    requires c.FinalizeWrite? && p in s.proofs
    ensures var s' := Advance(cfg, s, c, o).0;
            && p in s'.proofs
            && if Finalizes(s, c) && c.proof == p
               then s'.proofs[p].verifications == s.proofs[p].verifications + [VerdictRow(s, c.task, Quorum, c.winner)]
               else s'.proofs[p] == s.proofs[p]
  {}

  lemma {:induction false} UndecidedHasNoVerdict(rows: seq<Verification>, i: nat)
    requires Verdicts(rows) == [] && i < |rows|
    ensures !IsVerdict(rows[i])
  {
    if i < |rows| - 1 {
      UndecidedHasNoVerdict(rows[..|rows| - 1], i);
    }
  }

  /** A finalization writes the verdict of its own snapshot, the first that the proof gets. */
  lemma FinalizeKeepsProofBacked(x: System, e: Event, p: ProofId)
    requires Enabled(x, e) && e.Step? && Finalizes(x.store, x.calls[e.id]) && x.calls[e.id].proof == p
    requires ProofOk(x.store.proofs[p])
    ensures p in Apply(x, e).store.proofs && ProofBacked(Apply(x, e), Apply(x, e).store.proofs[p], p)
  {
    var rows := x.store.proofs[p].verifications;
    FinalizeAdds(x.cfg, x.store, x.calls[e.id], e.oracle, p);
    RecordsKept(x, e);
    forall i | 0 <= i < |rows|
      ensures !IsVerdict(rows[i])
    {
      UndecidedHasNoVerdict(rows, i);
    }
  }

  /** Every other step adds no quorum verdict. */
  lemma OtherStepAddsNone(cfg: Config, s: Store, c: Call, o: Oracle, p: ProofId)
    requires p in s.proofs && !(Finalizes(s, c) && c.proof == p)
    ensures var s' := Advance(cfg, s, c, o).0;
            p in s'.proofs && NoNewQuorumVerdict(s.proofs[p].verifications, s'.proofs[p].verifications)
  {
    if c.FinalizeWrite? {
      FinalizeAdds(cfg, s, c, o, p);
    } else if Decides(c) {
      DecisionAdds(cfg, s, c, o, p);
    } else {
      OtherStepWrites(cfg, s, c, o);
      WrittenAddsNone(s, c, p);
    }
  }

  lemma StepKeepsProofBacked(x: System, e: Event, p: ProofId)
    requires Enabled(x, e) && e.Step? && p in x.store.proofs
    requires ProofBacked(x, x.store.proofs[p], p) && ProofOk(x.store.proofs[p])
    ensures p in Apply(x, e).store.proofs && ProofBacked(Apply(x, e), Apply(x, e).store.proofs[p], p)
  {
    var c := x.calls[e.id];
    if Finalizes(x.store, c) && c.proof == p {
      FinalizeKeepsProofBacked(x, e, p);
    } else {
      OtherStepAddsNone(x.cfg, x.store, c, e.oracle, p);
      RecordsKept(x, e);
    }
  }

  lemma StepKeepsBackings(x: System, e: Event, p: ProofId)
    requires Inv(x) && AllBacked(x) && Enabled(x, e) && p in Apply(x, e).backings
    ensures SnapshotOk(Apply(x, e), p, Apply(x, e).backings[p].winner, Apply(x, e).backings[p].submitted)
  {
    if e.Step? && Finalizes(x.store, x.calls[e.id]) && x.calls[e.id].proof == p {
      var c := x.calls[e.id];
      assert CallBacked(x, c);
      SnapshotKept(x, e, p, c.winner, c.submitted);
    } else {
      RecordsKept(x, e);
      SnapshotKept(x, e, p, x.backings[p].winner, x.backings[p].submitted);
    }
  }

  lemma StepKeepsCallBacked(x: System, e: Event, id: nat)
    requires Inv(x) && AllBacked(x) && Enabled(x, e) && id in Apply(x, e).calls
    ensures CallBacked(Apply(x, e), Apply(x, e).calls[id])
  {
    var d := Apply(x, e).calls[id];
    if d.FinalizeRead? || d.FinalizeWrite? {
      if e.Step? && id == e.id {
        var c := x.calls[id];
        assert CallBacked(x, c);
        if c.VoteSnapshot? {
          SnapshotBacked(x, id, e.oracle);
        } else if c.FinalizeRead? {
          ReadBacked(x, id, e.oracle);
        } else {
          OthersFinalizeNothing(x, id, e.oracle);
        }
      } else {
        assert id in x.calls && x.calls[id] == d && CallBacked(x, d);
      }
      SnapshotKept(x, e, d.proof, d.winner, d.submitted);
    }
  }

  lemma EventKeepsBacked(x: System, e: Event)
    requires Inv(x) && AllBacked(x) && Enabled(x, e)
    ensures AllBacked(Apply(x, e))
  {
    var y := Apply(x, e);
    forall p | p in y.store.proofs
      ensures ProofBacked(y, y.store.proofs[p], p)
    {
      if e.Step? {
        AdvanceTouches(x.cfg, x.store, x.calls[e.id], e.oracle);
        StepKeepsProofBacked(x, e, p);
      } else {
        EnvironmentKeepsProofs(x, e, p);
        RecordsKept(x, e);
        if p in x.store.proofs { assert ProofBacked(x, x.store.proofs[p], p); }
      }
    }
    forall p | p in y.backings
      ensures SnapshotOk(y, p, y.backings[p].winner, y.backings[p].submitted)
    {
      StepKeepsBackings(x, e, p);
    }
    forall id | id in y.calls
      ensures CallBacked(y, y.calls[id])
    {
      StepKeepsCallBacked(x, e, id);
    }
  }

  lemma {:induction false} RunKeepsBacked(x: System, es: seq<Event>, y: System)
    requires Inv(x) && AllBacked(x) && Runs(x, es, y)
    ensures AllBacked(y)
    decreases es
  {
    if es != [] {
      StepKeepsInv(x, es[0]);
      EventKeepsBacked(x, es[0]);
      RunKeepsBacked(Apply(x, es[0]), es[1..], y);
    }
  }

  lemma {:induction false} ChoiceLength(submitted: seq<Ballot>, c: Choice)
    ensures |WithChoice(submitted, c)| == Count(submitted, c)
  {
    if submitted != [] {
      ChoiceLength(submitted[..|submitted| - 1], c);
    }
  }

  lemma VotersSize(submitted: seq<Ballot>)
    requires DistinctVoters(submitted)
    ensures |Voters(submitted)| == |submitted|
  {
    var ids := seq(|submitted|, i requires 0 <= i < |submitted| => submitted[i].validator);
    forall u | u in Voters(submitted)
      ensures u in ids
    {
      var i :| 0 <= i < |submitted| && submitted[i].validator == u;
      assert ids[i] == u;
    }
    ListsLength(ids, Voters(submitted));
  }

  /** Of distinct ballots, as many validators made a choice as the tally says. */
  lemma CountIsVotersOf(submitted: seq<Ballot>, c: Choice)
    requires DistinctVoters(submitted)
    ensures |VotersOf(submitted, c)| == Count(submitted, c)
  {
    WithChoiceVoters(submitted, c);
    VotersSize(WithChoice(submitted, c));
    ChoiceLength(submitted, c);
  }

  /**
   * Each quorum verdict row was decided by a snapshot in which at least one, and at least the required number, of
   * distinct validators had chosen that very verdict; all of them are assigned to the proof and have a cast vote,
   * and the submitter is none of them.
   */
  lemma QuorumVerdictsBacked(y: System, p: ProofId, i: nat)
    requires Reachable(y) && p in y.store.proofs
    requires i < |y.store.proofs[p].verifications| && IsQuorumVerdict(y.store.proofs[p].verifications[i])
    ensures p in y.backings
    ensures var r, b := y.store.proofs[p], y.backings[p]; var backers := VotersOf(b.submitted, b.winner);
            && r.verifications[i].verdict == Judged(b.winner)
            && 0 < |backers| && y.cfg.quorumRequired <= |backers|
            && backers <= CastVoters(r.votes) && r.submitter !in backers
  {
    var cfg, es :| Runs(Empty(cfg), es, y);
    EmptyInv(cfg);
    RunKeepsInv(Empty(cfg), es, y);
    RunKeepsBacked(Empty(cfg), es, y);
    assert ProofBacked(y, y.store.proofs[p], p) && ProofOk(y.store.proofs[p]);
    var b := y.backings[p];
    assert SnapshotOk(y, p, b.winner, b.submitted);
    CountIsVotersOf(b.submitted, b.winner);
    ChoiceVotersWithin(b.submitted, b.winner);
  }

  // ---- votes may be replaced later ----

  /** A cast vote is replaced in a step exactly by another write of the same validator with the other choice. */
  lemma VoteReplacedIff(x: System, e: Event, p: ProofId, v: UserId)
    requires Reachable(x) && Enabled(x, e) && p in x.store.proofs && p in Apply(x, e).store.proofs
    requires v in x.store.proofs[p].votes && x.store.proofs[p].votes[v].Some?
    ensures v in Apply(x, e).store.proofs[p].votes
    ensures Apply(x, e).store.proofs[p].votes[v] != x.store.proofs[p].votes[v]
            <==> && e.Step? && x.calls[e.id].VoteWrite? && x.calls[e.id].proof == p && x.calls[e.id].validator == v
                 && Some(x.calls[e.id].choice) != x.store.proofs[p].votes[v]
  {
    ReachableInv(x);
    if e.Step? {
      CastVoteReplacedIff(x, e.id, e.oracle, p, v);
    } else {
      EnvironmentKeepsProofs(x, e, p);
    }
  }

  lemma CastVoteReplacedIff(x: System, id: nat, o: Oracle, p: ProofId, v: UserId)
    requires id in x.calls && p in x.store.proofs
    requires v in x.store.proofs[p].votes && x.store.proofs[p].votes[v].Some?
    ensures var s', c := Advance(x.cfg, x.store, x.calls[id], o).0, x.calls[id];
            && p in s'.proofs && v in s'.proofs[p].votes
            && (s'.proofs[p].votes[v] != x.store.proofs[p].votes[v]
                <==> && c.VoteWrite? && c.proof == p && c.validator == v
                     && Some(c.choice) != x.store.proofs[p].votes[v])
  {
    var c := x.calls[id];
    AdvanceTouches(x.cfg, x.store, c, o);
    if WritesVotes(c) {
      OtherStepWrites(x.cfg, x.store, c, o);
    }
  }

  // ---- what the voter is told ----

  function Requested(winner: Choice): ProofStatus {
    if winner.Approve? then APPROVED else REJECTED
  }

  /** The status in the answer of `finalizeProof` when the call ends in this step: always `finalized: true`. */
  function Answered(s: Store, c: Call): ProofStatus
    requires c.FinalizeRead? || c.FinalizeWrite?
  {
    if Finalizes(s, c) then (if FinallyApproved(s, c.task, c.winner) then APPROVED else REJECTED)
    else Requested(c.winner)
  }

  /** A finalization that is the first to decide the proof stores what it answers. */
  lemma DecidingAnswers(cfg: Config, s: Store, c: Call, o: Oracle)
    requires Finalizes(s, c)
    ensures var s' := Advance(cfg, s, c, o).0; c.proof in s'.proofs && s'.proofs[c.proof].status == Answered(s, c)
  {}

  lemma UndecidedFinalizes(x: System, c: Call)
    requires Inv(x) && c.FinalizeWrite? && CallOk(x.store, x.issued, c)
    requires c.proof in x.store.proofs && Awaiting(x.store.proofs[c.proof].status)
    ensures Finalizes(x.store, c)
  {
    PayoutMatchesStatus(x.store.proofs[c.proof]);
    FinalizeDecides(x.store, c.proof, c.task, c.winner, c.submitted);
  }

  /** A read that returns, and a write that comes too late, leave the proof as it is. */
  lemma LateAnswers(cfg: Config, s: Store, c: Call, o: Oracle)
    requires c.FinalizeRead? || c.FinalizeWrite?
    requires !(c.FinalizeWrite? && c.proof in s.proofs && Awaiting(s.proofs[c.proof].status))
    ensures Advance(cfg, s, c, o).0.proofs == s.proofs
  {}

  /**
   * A finalization answers with the stored status if and only if it decided the proof itself, or another decision
   * before it had come to the status that it would have asked for.
   */
  lemma AnswerAgreesIff(x: System, e: Event, c: Call)
    requires Reachable(x) && Enabled(x, e) && e.Step? && x.calls[e.id] == c && (c.FinalizeRead? || c.FinalizeWrite?)
    requires Advance(x.cfg, x.store, c, e.oracle).1.None?
    ensures var s, s' := x.store, Apply(x, e).store;
            (c.proof in s'.proofs && s'.proofs[c.proof].status == Answered(s, c))
            <==> && c.proof in s.proofs
                 && (Awaiting(s.proofs[c.proof].status) || s.proofs[c.proof].status == Requested(c.winner))
  {
    ReachableInv(x);
    assert CallOk(x.store, x.issued, c);
    if c.FinalizeWrite? && c.proof in x.store.proofs && Awaiting(x.store.proofs[c.proof].status) {
      UndecidedFinalizes(x, c);
      DecidingAnswers(x.cfg, x.store, c, e.oracle);
    } else {
      LateAnswers(x.cfg, x.store, c, e.oracle);
    }
  }
}
