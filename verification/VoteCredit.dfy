/** Over whole runs: what review counts add up to, and how often a ballot is escalated. */
module VoteCredit {
  import opened Common
  import opened Tally
  import opened Store
  import opened Protocol
  import opened ProtocolSafety
  import opened ProtocolTheorems

  // ---- every review that is counted comes from one committed step ----

  ghost predicate CreditsOk(x: System) {
    && (forall u :: u in x.store.users ==> x.store.users[u].reviewCount == x.credits[u])
    && (forall u :: u in x.credits ==> u in x.store.users)
  }

  /** What a step does to one user's review count. */
  lemma AdvanceCredits(x: System, id: nat, o: Oracle, u: UserId)
    requires Inv(x) && id in x.calls && u in x.store.users
    ensures var s' := Advance(x.cfg, x.store, x.calls[id], o).0;
            && u in s'.users
            && s'.users[u].reviewCount == x.store.users[u].reviewCount + Credited(x.store, x.calls[id])[u]
  {
    var c := x.calls[id];
    var s := x.store;
    assert CallOk(s, x.issued, c);
    if c.FinalizeWrite? {
      FinalizeCredits(s, c, u);
    } else if c.NoQuorumWrite? {
      CreditEffect(s.users, c.submitted, 1, 0);
    } else if Decides(c) {
      DecisionKeepsUsers(x.cfg, s, c, o);
    } else {
      OtherStepWrites(x.cfg, s, c, o);
    }
  }

  lemma DecisionKeepsUsers(cfg: Config, s: Store, c: Call, o: Oracle)
    requires c.WorkerDecide? || c.ReviewWrite?
    ensures Advance(cfg, s, c, o).0.users == s.users
  {}

  lemma FinalizeCredits(s: Store, c: Call, u: UserId)
    requires c.FinalizeWrite? && BallotsOk(s, c.submitted) && u in s.users
    ensures var s' := Settle(s, FinalizeTx(s, c.proof, c.task, c.winner, c.submitted));
            && u in s'.users
            && s'.users[u].reviewCount == s.users[u].reviewCount + Credited(s, c)[u]
  {
    RewardPointwise(s.users, c.submitted, c.winner);
    ChoiceVotersWithin(c.submitted, c.winner);
    ChoiceVotersWithin(c.submitted, Other(c.winner));
  }

  lemma CreditsArePeople(x: System, id: nat, u: UserId)
    requires Inv(x) && id in x.calls && u in Credited(x.store, x.calls[id])
    ensures u in x.store.users
  {
    assert CallOk(x.store, x.issued, x.calls[id]);
  }

  lemma CallKeepsCredits(x: System, id: nat, o: Oracle)
    requires Inv(x) && CreditsOk(x) && Enabled(x, Step(id, o))
    ensures var s', credits := Advance(x.cfg, x.store, x.calls[id], o).0, x.credits + Credited(x.store, x.calls[id]);
            && (forall u :: u in s'.users ==> s'.users[u].reviewCount == credits[u])
            && (forall u :: u in credits ==> u in s'.users)
  {
    AdvanceTouches(x.cfg, x.store, x.calls[id], o);
    var s' := Advance(x.cfg, x.store, x.calls[id], o).0;
    var credits := x.credits + Credited(x.store, x.calls[id]);
    forall u | u in s'.users
      ensures s'.users[u].reviewCount == credits[u]
    {
      AdvanceCredits(x, id, o, u);
    }
    forall u | u in credits
      ensures u in s'.users
    {
      if u in Credited(x.store, x.calls[id]) { CreditsArePeople(x, id, u); }
    }
  }

  lemma StepKeepsCredits(x: System, e: Event)
    requires Inv(x) && CreditsOk(x) && Enabled(x, e)
    ensures CreditsOk(Apply(x, e))
  {
    if e.Step? {
      CallKeepsCredits(x, e.id, e.oracle);
    }
  }

  lemma {:induction false} RunKeepsCredits(x: System, es: seq<Event>, y: System)
    requires Inv(x) && CreditsOk(x) && Runs(x, es, y)
    ensures CreditsOk(y)
    decreases es
  {
    if es != [] {
      StepKeepsInv(x, es[0]);
      StepKeepsCredits(x, es[0]);
      RunKeepsCredits(Apply(x, es[0]), es[1..], y);
    }
  }

  /**
   * Conservation: a validator's review count is the number of finalizations that decided a proof plus the number
   * of no-quorum escalations, over the whole run, that the validator's vote was part of.
   */
  lemma ReviewsConserved(y: System, u: UserId)
    requires Reachable(y) && u in y.store.users
    ensures y.store.users[u].reviewCount == y.credits[u]
  {
    var cfg, es :| Runs(Empty(cfg), es, y);
    EmptyInv(cfg);
    RunKeepsCredits(Empty(cfg), es, y);
  }

  // ---- escalations of a full ballot ----

  function Escalations(rows: seq<Verification>): nat {
    if rows == [] then 0
    else Escalations(rows[..|rows| - 1]) + (if rows[|rows| - 1] == NO_QUORUM_ROW then 1 else 0)
  }

  lemma EscalationsSnoc(rows: seq<Verification>, v: Verification)
    ensures Escalations(rows + [v]) == Escalations(rows) + (if v == NO_QUORUM_ROW then 1 else 0)
  {
    assert (rows + [v])[..|rows|] == rows;
  }

  /** The rows after a step are those before, or one more, which is of another kind. */
  ghost predicate AddsOther(before: seq<Verification>, after: seq<Verification>) {
    after == before || (after != [] && after == before + [after[|after| - 1]] && after[|after| - 1] != NO_QUORUM_ROW)
  }

  lemma WrittenAddsOther(s: Store, c: Call, p: ProofId)
    requires !c.NoQuorumWrite? && p in s.proofs
    ensures p in Written(s, c).proofs && AddsOther(s.proofs[p].verifications, Written(s, c).proofs[p].verifications)
  {}

  lemma StepAddsOther(cfg: Config, s: Store, c: Call, o: Oracle, p: ProofId)
    requires p in s.proofs && !(c.NoQuorumWrite? && c.proof == p)
    ensures var s' := Advance(cfg, s, c, o).0;
            p in s'.proofs && AddsOther(s.proofs[p].verifications, s'.proofs[p].verifications)
  {
    if Decides(c) {
      DecisionAdds(cfg, s, c, o, p);
    } else if c.NoQuorumWrite? {
      AdvanceTouches(cfg, s, c, o);
    } else {
      OtherStepWrites(cfg, s, c, o);
      WrittenAddsOther(s, c, p);
    }
  }

  lemma AddsOtherCounts(before: seq<Verification>, after: seq<Verification>)
    requires AddsOther(before, after)
    ensures Escalations(after) == Escalations(before)
  {
    if after != before { EscalationsSnoc(before, after[|after| - 1]); }
  }

  predicate IsEscalationOf(x: System, e: Event, p: ProofId) {
    e.Step? && e.id in x.calls && x.calls[e.id].NoQuorumWrite? && x.calls[e.id].proof == p
  }

  lemma EscalationAdds(x: System, e: Event, p: ProofId)
    requires Reachable(x) && Enabled(x, e) && p in x.store.proofs && IsEscalationOf(x, e, p)
    ensures p in Apply(x, e).store.proofs
    ensures Escalations(Apply(x, e).store.proofs[p].verifications)
            == Escalations(x.store.proofs[p].verifications) + 1
  {
    EscalationRepeats(x, e, x.calls[e.id]);
    EscalationsSnoc(x.store.proofs[p].verifications, NO_QUORUM_ROW);
  }

  lemma EnvironmentKeepsRows(x: System, e: Event, p: ProofId)
    requires Enabled(x, e) && !e.Step? && p in x.store.proofs && p in x.issued && p in Apply(x, e).store.proofs
    ensures Apply(x, e).store.proofs[p] == x.store.proofs[p]
  {}

  /** An event gives a proof a further escalation row exactly if it is the write of an escalation of that proof. */
  lemma EscalationsCounted(x: System, e: Event, p: ProofId)
    requires Reachable(x) && Enabled(x, e) && p in x.store.proofs && p in Apply(x, e).store.proofs
    ensures Escalations(Apply(x, e).store.proofs[p].verifications)
            == Escalations(x.store.proofs[p].verifications) + (if IsEscalationOf(x, e, p) then 1 else 0)
  {
    if IsEscalationOf(x, e, p) {
      EscalationAdds(x, e, p);
    } else if e.Step? {
      StepAddsOther(x.cfg, x.store, x.calls[e.id], e.oracle, p);
      AddsOtherCounts(x.store.proofs[p].verifications, Apply(x, e).store.proofs[p].verifications);
    } else {
      ReachableInv(x);
      EnvironmentKeepsRows(x, e, p);
    }
  }

  /** So a proof gets its second escalation row exactly when it has one and another escalation of it is written. */
  lemma SecondEscalationIff(x: System, e: Event, p: ProofId)
    requires Reachable(x) && Enabled(x, e) && p in x.store.proofs && p in Apply(x, e).store.proofs
    ensures Escalations(x.store.proofs[p].verifications) < 2 <= Escalations(Apply(x, e).store.proofs[p].verifications)
            <==> IsEscalationOf(x, e, p) && Escalations(x.store.proofs[p].verifications) == 1
  {
    EscalationsCounted(x, e, p);
  }

  /**
   * An escalation on its way always commits, even if the proof was escalated before: one more row, and one more
   * review for each voter. Two last voters who race thus escalate a proof twice.
   */
  lemma EscalationRepeats(x: System, e: Event, c: Call)
    requires Reachable(x) && Enabled(x, e) && e.Step? && x.calls[e.id] == c && c.NoQuorumWrite?
    requires c.proof in x.store.proofs
    ensures var s, s' := x.store, Apply(x, e).store;
            && c.proof in s'.proofs
            && s'.proofs[c.proof].verifications == s.proofs[c.proof].verifications + [NO_QUORUM_ROW]
            && (forall u :: u in s.users ==>
                  && u in s'.users
                  && s'.users[u].reviewCount == s.users[u].reviewCount + (if u in Voters(c.submitted) then 1 else 0))
  {
    ReachableInv(x);
    assert CallOk(x.store, x.issued, c);
    NoQuorumRecords(x.store, c.proof, c.submitted);
    CreditEffect(x.store.users, c.submitted, 1, 0);
  }
}
