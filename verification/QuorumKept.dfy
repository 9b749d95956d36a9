/**
 * No quorum is lost. castVote checks, writes its vote, reads a snapshot and decides in separate steps,
 * racing with other votes (also by the same validator), with assignments, workers and admins. As long as
 * no call died after writing its vote, a quorum in the recorded votes always has a call on its way to resolve it.
 */
module QuorumKept {
  import opened Common
  import opened Tally
  import opened Store
  import opened Protocol
  import opened ProtocolSafety
  import opened ProtocolTheorems

  /** Some call for `p` will still read the votes or is about to finalize. */
  ghost predicate Pending(calls: map<nat, Call>, p: ProofId) {
    exists id :: id in calls && Resolving(calls[id]) && calls[id].proof == p
  }

  ghost predicate PendingEscalation(calls: map<nat, Call>, p: ProofId) {
    exists id :: id in calls && AfterVote(calls[id]) && calls[id].proof == p
  }

  ghost predicate FullWithoutQuorum(votes: Votes, required: int) {
    votes.Keys != {} && AllCast(votes) && !HoldsQuorum(votes, required)
  }

  /** What is owed to one undecided proof, given the calls in flight. */
  ghost predicate Attended(required: int, calls: map<nat, Call>, p: ProofId, r: Proof) {
    Awaiting(r.status) ==>
      && (HoldsQuorum(r.votes, required) ==> Pending(calls, p))
      && (FullWithoutQuorum(r.votes, required) ==> NO_QUORUM_ROW in r.verifications || PendingEscalation(calls, p))
  }

  ghost predicate AllAttended(x: System) {
    forall p :: p in x.store.proofs && p !in x.abandoned
      ==> Attended(x.cfg.quorumRequired, x.calls, p, x.store.proofs[p])
  }

  lemma NoVotesNoQuorum(required: int)
    ensures !HoldsQuorum(NO_VOTES, required) && !FullWithoutQuorum(NO_VOTES, required)
  {
    assert VotersFor(NO_VOTES, Approve) == {} && VotersFor(NO_VOTES, Reject) == {};
    forall c
      ensures !Reaches(NO_VOTES, c, required)
    {
      assert c.Approve? || c.Reject?;
    }
  }

  /** New, uncast rows create no quorum and leave the ballot open. */
  lemma AssignmentOpensBallot(votes: Votes, chosen: seq<UserId>, required: int)
    requires chosen != [] && forall i :: 0 <= i < |chosen| ==> chosen[i] !in votes
    ensures var after: Votes := votes + NewRows(chosen);
            && (HoldsQuorum(after, required) ==> HoldsQuorum(votes, required))
            && !FullWithoutQuorum(after, required)
  {
    var after: Votes := votes + NewRows(chosen);
    forall c
      ensures VotersFor(after, c) == VotersFor(votes, c)
    {
    }
    forall c | Reaches(after, c, required)
      ensures Reaches(votes, c, required)
    {
    }
    assert chosen[0] in after && after[chosen[0]].None?;
  }

  // ---- one step of one call, seen from the proof `p` ----

  /** Any step of a call other than the vote write: votes stay, and what was recorded stays recorded. */
  lemma AdvanceKeepsRecords(cfg: Config, s: Store, c: Call, o: Oracle, p: ProofId)
    requires p in s.proofs && !c.VoteWrite? && !c.AssignInsert?
    ensures var s' := Advance(cfg, s, c, o).0;
            && p in s'.proofs
            && s'.proofs[p].votes == s.proofs[p].votes
            && (NO_QUORUM_ROW in s.proofs[p].verifications ==> NO_QUORUM_ROW in s'.proofs[p].verifications)
            && (Awaiting(s'.proofs[p].status) ==> Awaiting(s.proofs[p].status))
  {
    AdvanceTouches(cfg, s, c, o);
    assert KeepsProof(s.proofs[p], Advance(cfg, s, c, o).0.proofs[p]);
  }

  lemma VoteKeepsOthers(cfg: Config, s: Store, c: Call, o: Oracle, p: ProofId)
    requires p in s.proofs && (c.VoteWrite? || c.AssignInsert?)
    ensures p in Advance(cfg, s, c, o).0.proofs
    ensures c.proof != p ==> Advance(cfg, s, c, o).0.proofs[p] == s.proofs[p]
    ensures Advance(cfg, s, c, o).0.proofs[p].verifications == s.proofs[p].verifications
    ensures Advance(cfg, s, c, o).0.proofs[p].status == s.proofs[p].status
  {}

  /** A snapshot of an undecided proof moves on exactly when there is a quorum to finalize or a ballot to escalate. */
  lemma SnapshotMovesOn(cfg: Config, s: Store, c: Call, o: Oracle)
    requires c.VoteSnapshot? && c.proof in s.proofs && Awaiting(s.proofs[c.proof].status)
    requires OracleOk(cfg, s, c, o)
    ensures var next := Advance(cfg, s, c, o).1; var votes := s.proofs[c.proof].votes;
            && (HoldsQuorum(votes, cfg.quorumRequired) ==>
                next.Some? && next.value.FinalizeRead? && next.value.proof == c.proof)
            && (FullWithoutQuorum(votes, cfg.quorumRequired) ==>
                next.Some? && next.value.NoQuorumWrite? && next.value.proof == c.proof)
  {
    ResolveOutcome(s.proofs[c.proof].votes, o.rows, cfg.quorumRequired);
  }

  /** A pending finalization of a proof that is still undecided decides it. */
  lemma FinalizerDecides(x: System, id: nat, o: Oracle, p: ProofId)
    requires Inv(x) && id in x.calls && x.calls[id].FinalizeWrite? && x.calls[id].proof == p
    requires p in x.store.proofs && Awaiting(x.store.proofs[p].status)
    ensures var s' := Advance(x.cfg, x.store, x.calls[id], o).0; p in s'.proofs && Decided(s'.proofs[p].status)
  {
    var c := x.calls[id];
    assert CallOk(x.store, x.issued, c);
    PayoutMatchesStatus(x.store.proofs[p]);
    FinalizeDecides(x.store, p, c.task, c.winner, c.submitted);
  }

  lemma EscalatorRecords(x: System, id: nat, o: Oracle, p: ProofId)
    requires Inv(x) && id in x.calls && x.calls[id].NoQuorumWrite? && x.calls[id].proof == p
    requires p in x.store.proofs
    ensures var s' := Advance(x.cfg, x.store, x.calls[id], o).0;
            p in s'.proofs && NO_QUORUM_ROW in s'.proofs[p].verifications
  {
    var c := x.calls[id];
    assert CallOk(x.store, x.issued, c);
    NoQuorumRecords(x.store, p, c.submitted);
  }

  /**
   * A resolving call whose proof is undecided both before and after its step and has a quorum
   * stays a resolving call for that proof.
   */
  lemma ResolverPersists(x: System, id: nat, o: Oracle, p: ProofId)
    requires Inv(x) && Enabled(x, Step(id, o))
    requires Resolving(x.calls[id]) && x.calls[id].proof == p
    requires p in x.store.proofs && HoldsQuorum(x.store.proofs[p].votes, x.cfg.quorumRequired)
    ensures var (s', next) := Advance(x.cfg, x.store, x.calls[id], o);
            && p in s'.proofs
            && (Awaiting(s'.proofs[p].status) ==> next.Some? && Resolving(next.value) && next.value.proof == p)
  {
    var c := x.calls[id];
    AdvanceKeepsRecords(x.cfg, x.store, c, o, p);
    if Awaiting(x.store.proofs[p].status) {
      match c
      case VoteSnapshot(_) => SnapshotMovesOn(x.cfg, x.store, c, o);
      case FinalizeRead(_, _, _) => FinalizeReadGoesOn(x, id, o, p);
      case FinalizeWrite(_, _, _, _) => FinalizerDecides(x, id, o, p);
    }
  }

  /** After a step of a castVote call: the escalation is recorded, or the call for `p` is still on its way. */
  ghost predicate StillEscalating(after: (Store, Option<Call>), p: ProofId) {
    && p in after.0.proofs
    && (Awaiting(after.0.proofs[p].status) ==>
          || NO_QUORUM_ROW in after.0.proofs[p].verifications
          || (after.1.Some? && AfterVote(after.1.value) && after.1.value.proof == p))
  }

  /** A snapshot of an undecided full ballot without a quorum leads to the escalation. */
  lemma SnapshotEscalates(x: System, id: nat, o: Oracle, p: ProofId)
    requires Enabled(x, Step(id, o)) && x.calls[id].VoteSnapshot? && x.calls[id].proof == p
    requires p in x.store.proofs && Awaiting(x.store.proofs[p].status)
    requires FullWithoutQuorum(x.store.proofs[p].votes, x.cfg.quorumRequired)
    ensures StillEscalating(Advance(x.cfg, x.store, x.calls[id], o), p)
  {
    SnapshotMovesOn(x.cfg, x.store, x.calls[id], o);
  }

  lemma DecidedStays(x: System, id: nat, o: Oracle, p: ProofId)
    requires id in x.calls && p in x.store.proofs && Decided(x.store.proofs[p].status)
    ensures StillEscalating(Advance(x.cfg, x.store, x.calls[id], o), p)
  {
    AdvanceTouches(x.cfg, x.store, x.calls[id], o);
  }

  lemma FinalizeReadGoesOn(x: System, id: nat, o: Oracle, p: ProofId)
    requires id in x.calls && x.calls[id].FinalizeRead? && x.calls[id].proof == p
    requires p in x.store.proofs && Awaiting(x.store.proofs[p].status)
    ensures var (s', next) := Advance(x.cfg, x.store, x.calls[id], o);
            s' == x.store && next.Some? && Resolving(next.value) && next.value.proof == p
  {}

  /** The same for a full ballot without a quorum: the call stays on its way, or the escalation row is there. */
  lemma EscalatorPersists(x: System, id: nat, o: Oracle, p: ProofId)
    requires Inv(x) && Enabled(x, Step(id, o))
    requires AfterVote(x.calls[id]) && x.calls[id].proof == p
    requires p in x.store.proofs && FullWithoutQuorum(x.store.proofs[p].votes, x.cfg.quorumRequired)
    ensures StillEscalating(Advance(x.cfg, x.store, x.calls[id], o), p)
  {
    var c := x.calls[id];
    if Decided(x.store.proofs[p].status) {
      DecidedStays(x, id, o, p);
    } else if c.VoteSnapshot? {
      SnapshotEscalates(x, id, o, p);
    } else if c.FinalizeRead? {
      FinalizeReadGoesOn(x, id, o, p);
    } else if c.FinalizeWrite? {
      FinalizerDecides(x, id, o, p);
    } else {
      EscalatorRecords(x, id, o, p);
    }
  }

  // ---- preservation ----

  ghost function CallsAfter(calls: map<nat, Call>, id: nat, next: Option<Call>): map<nat, Call> {
    if next.Some? then calls[id := next.value] else calls - {id}
  }

  /** A pending resolution stays pending when the only call that moves is replaced by a resolving one. */
  lemma PendingAfter(calls: map<nat, Call>, id: nat, next: Option<Call>, p: ProofId)
    requires Pending(calls, p) && id in calls
    requires Resolving(calls[id]) && calls[id].proof == p ==>
        next.Some? && Resolving(next.value) && next.value.proof == p
    ensures Pending(CallsAfter(calls, id, next), p)
  {
    var after := CallsAfter(calls, id, next);
    var k :| k in calls && Resolving(calls[k]) && calls[k].proof == p;
    assert k in after && Resolving(after[k]) && after[k].proof == p;
  }

  lemma StepKeepsPending(x: System, id: nat, o: Oracle, p: ProofId)
    requires Inv(x) && Enabled(x, Step(id, o))
    requires p in x.store.proofs && HoldsQuorum(x.store.proofs[p].votes, x.cfg.quorumRequired)
    requires Pending(x.calls, p)
    ensures var y := Apply(x, Step(id, o));
            p in y.store.proofs && Awaiting(y.store.proofs[p].status) ==> Pending(y.calls, p)
  {
    var (s', next) := Advance(x.cfg, x.store, x.calls[id], o);
    if p in s'.proofs && Awaiting(s'.proofs[p].status) {
      if Resolving(x.calls[id]) && x.calls[id].proof == p {
        ResolverPersists(x, id, o, p);
      }
      PendingAfter(x.calls, id, next, p);
    }
  }

  lemma StepKeepsEscalation(x: System, id: nat, o: Oracle, p: ProofId)
    requires Inv(x) && Enabled(x, Step(id, o))
    requires p in x.store.proofs && FullWithoutQuorum(x.store.proofs[p].votes, x.cfg.quorumRequired)
    requires PendingEscalation(x.calls, p)
    ensures var y := Apply(x, Step(id, o));
            p in y.store.proofs && Awaiting(y.store.proofs[p].status) ==>
              NO_QUORUM_ROW in y.store.proofs[p].verifications || PendingEscalation(y.calls, p)
  {
    var y := Apply(x, Step(id, o));
    var k :| k in x.calls && AfterVote(x.calls[k]) && x.calls[k].proof == p;
    if k == id {
      EscalatorPersists(x, id, o, p);
      if p in y.store.proofs && Awaiting(y.store.proofs[p].status)
         && NO_QUORUM_ROW !in y.store.proofs[p].verifications {
        assert id in y.calls && AfterVote(y.calls[id]) && y.calls[id].proof == p;
      }
    } else {
      assert k in y.calls && y.calls[k] == x.calls[k];
    }
  }

  /** The vote write itself: the writer goes on to read a snapshot, whatever its vote changed. */
  lemma VoteWriteAttends(x: System, id: nat, o: Oracle, p: ProofId)
    requires Enabled(x, Step(id, o)) && x.calls[id].VoteWrite? && x.calls[id].proof == p
    requires p in x.store.proofs
    requires Attended(x.cfg.quorumRequired, x.calls, p, x.store.proofs[p])
    ensures var y := Apply(x, Step(id, o));
            p in y.store.proofs && Attended(x.cfg.quorumRequired, y.calls, p, y.store.proofs[p])
  {
    var y := Apply(x, Step(id, o));
    var c := x.calls[id];
    if VoteTx(x.store, p, c.validator, c.choice).Commit? {
      assert id in y.calls && y.calls[id] == VoteSnapshot(p);
    } else {
      OthersStillPending(x.calls, y.calls, id, p);
    }
  }

  lemma OthersStillPending(calls: map<nat, Call>, after: map<nat, Call>, id: nat, p: ProofId)
    requires forall k :: k in calls && k != id ==> k in after && after[k] == calls[k]
    requires id in calls ==> !AfterVote(calls[id]) || calls[id].proof != p
    ensures Pending(calls, p) ==> Pending(after, p)
    ensures PendingEscalation(calls, p) ==> PendingEscalation(after, p)
  {
    if Pending(calls, p) {
      var k :| k in calls && Resolving(calls[k]) && calls[k].proof == p;
      assert k in after && Resolving(after[k]) && after[k].proof == p;
    }
    if PendingEscalation(calls, p) {
      var k :| k in calls && AfterVote(calls[k]) && calls[k].proof == p;
      assert k in after && AfterVote(after[k]) && after[k].proof == p;
    }
  }

  lemma AssignAttends(x: System, id: nat, o: Oracle, p: ProofId)
    requires Enabled(x, Step(id, o)) && x.calls[id].AssignInsert? && x.calls[id].proof == p
    requires p in x.store.proofs
    requires Attended(x.cfg.quorumRequired, x.calls, p, x.store.proofs[p])
    ensures var y := Apply(x, Step(id, o));
            p in y.store.proofs && Attended(x.cfg.quorumRequired, y.calls, p, y.store.proofs[p])
  {
    var y := Apply(x, Step(id, o));
    var c := x.calls[id];
    OthersStillPending(x.calls, y.calls, id, p);
    if AssignTx(x.store, p, c.chosen).Commit? && c.chosen != [] {
      AssignmentOpensBallot(x.store.proofs[p].votes, c.chosen, x.cfg.quorumRequired);
    } else if c.chosen == [] {
      assert x.store.proofs[p].votes + NewRows(c.chosen) == x.store.proofs[p].votes;
    }
  }

  lemma StepAttends(x: System, id: nat, o: Oracle, p: ProofId)
    requires Inv(x) && Enabled(x, Step(id, o)) && p in x.store.proofs
    requires Attended(x.cfg.quorumRequired, x.calls, p, x.store.proofs[p])
    ensures var y := Apply(x, Step(id, o));
            p in y.store.proofs && Attended(x.cfg.quorumRequired, y.calls, p, y.store.proofs[p])
  {
    var c := x.calls[id];
    var y := Apply(x, Step(id, o));
    if (c.VoteWrite? || c.AssignInsert?) && c.proof != p {
      VoteKeepsOthers(x.cfg, x.store, c, o, p);
      OthersStillPending(x.calls, y.calls, id, p);
    } else if c.VoteWrite? {
      VoteWriteAttends(x, id, o, p);
    } else if c.AssignInsert? {
      AssignAttends(x, id, o, p);
    } else {
      AdvanceKeepsRecords(x.cfg, x.store, c, o, p);
      if Awaiting(y.store.proofs[p].status) {
        if HoldsQuorum(x.store.proofs[p].votes, x.cfg.quorumRequired) {
          StepKeepsPending(x, id, o, p);
        }
        if FullWithoutQuorum(x.store.proofs[p].votes, x.cfg.quorumRequired)
           && NO_QUORUM_ROW !in x.store.proofs[p].verifications {
          StepKeepsEscalation(x, id, o, p);
        }
      }
    }
  }

  /** Steps of the environment touch no proof that is already there. */
  lemma EnvironmentKeepsProof(x: System, e: Event, p: ProofId)
    requires Enabled(x, e) && !e.Step? && p in Apply(x, e).store.proofs
    requires x.store.proofs.Keys <= x.issued
    ensures if p in x.store.proofs then Apply(x, e).store.proofs[p] == x.store.proofs[p]
            else e.Submit? && Apply(x, e).store.proofs[p].votes == NO_VOTES
  {}

  lemma EventAttends(x: System, e: Event)
    requires Inv(x) && Enabled(x, e) && AllAttended(x)
    ensures AllAttended(Apply(x, e))
  {
    var y := Apply(x, e);
    forall p | p in y.store.proofs && p !in y.abandoned
      ensures Attended(y.cfg.quorumRequired, y.calls, p, y.store.proofs[p])
    {
      if e.Step? {
        AdvanceAddsNoProof(x.cfg, x.store, x.calls[e.id], e.oracle, p);
        StepAttends(x, e.id, e.oracle, p);
      } else {
        EnvironmentKeepsProof(x, e, p);
        if p !in x.store.proofs {
          NoVotesNoQuorum(x.cfg.quorumRequired);
        } else if e.Crash? {
          OthersStillPending(x.calls, y.calls, e.id, p);
        } else if e.Begin? {
          OthersStillPending(x.calls, y.calls, e.id, p);
        } else {
          assert y.calls == x.calls;
        }
      }
    }
  }

  lemma AdvanceAddsNoProof(cfg: Config, s: Store, c: Call, o: Oracle, p: ProofId)
    requires p in Advance(cfg, s, c, o).0.proofs
    ensures p in s.proofs
  {
    AdvanceTouches(cfg, s, c, o);
  }

  lemma {:induction false} RunAttends(x: System, es: seq<Event>, y: System)
    requires Inv(x) && AllAttended(x) && Runs(x, es, y)
    ensures AllAttended(y)
    decreases es
  {
    if es != [] {
      StepKeepsInv(x, es[0]);
      EventAttends(x, es[0]);
      RunAttends(Apply(x, es[0]), es[1..], y);
    }
  }

  /**
   * Once no castVote call is in flight for a proof, and none died after writing its vote: recorded votes that
   * hold a quorum have decided the proof, and a fully cast ballot has decided it or left an escalation row.
   */
  lemma NoQuorumLost(y: System, p: ProofId)
    requires Reachable(y) && p in y.store.proofs && p !in y.abandoned
    requires forall id :: id in y.calls && y.calls[id].proof == p ==> !AfterVote(y.calls[id])
    ensures var r := y.store.proofs[p];
            && (HoldsQuorum(r.votes, y.cfg.quorumRequired) ==> Decided(r.status))
            && (r.votes.Keys != {} && AllCast(r.votes) ==> Decided(r.status) || NO_QUORUM_ROW in r.verifications)
  {
    var cfg, es :| Runs(Empty(cfg), es, y);
    EmptyInv(cfg);
    RunAttends(Empty(cfg), es, y);
    assert Attended(y.cfg.quorumRequired, y.calls, p, y.store.proofs[p]);
  }
}
