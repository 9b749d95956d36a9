/** The ballot count behind community validation: tallies, the quorum winner and what follows from it. */
module Tally {
  import opened Common

  type UserId = nat
  datatype Choice = Approve | Reject

  /** A cast vote, as `resolveQuorum` sees it in its snapshot. */
  datatype Ballot = Ballot(validator: UserId, choice: Choice)

  /** The vote rows of one proof: every assigned validator, with a choice once cast. */
  type Votes = map<UserId, Option<Choice>>

  function Other(c: Choice): Choice {
    if c.Approve? then Reject else Approve
  }

  function Count(submitted: seq<Ballot>, c: Choice): nat {
    if submitted == [] then 0
    else Count(submitted[..|submitted| - 1], c) + (if submitted[|submitted| - 1].choice == c then 1 else 0)
  }

  /** The cast votes among the rows, in the order in which the database returned the rows. */
  function Submitted(votes: Votes, order: seq<UserId>): seq<Ballot> {
    if order == [] then []
    else
      var v := order[|order| - 1];
      var init := Submitted(votes, order[..|order| - 1]);
      if v in votes && votes[v].Some? then init + [Ballot(v, votes[v].value)] else init
  }

  ghost function VotersFor(votes: Votes, c: Choice): set<UserId> {
    set v | v in votes && votes[v] == Some(c)
  }

  ghost predicate AllCast(votes: Votes) {
    forall v :: v in votes ==> votes[v].Some?
  }

  /** Some choice that at least one validator made has reached the required number of votes. */
  ghost predicate HoldsQuorum(votes: Votes, required: int) {
    exists c :: Reaches(votes, c, required)
  }

  ghost predicate Reaches(votes: Votes, c: Choice, required: int) {
    0 < |VotersFor(votes, c)| && required <= |VotersFor(votes, c)|
  }

  /**
   * The quorum winner: the choice seen first among those whose tally reaches the requirement.
   * The tally record only ever has keys that occur in the ballots.
   */
  function Winner(submitted: seq<Ballot>, required: int): (w: Option<Choice>)
    ensures w.Some? ==> 0 < Count(submitted, w.value) && required <= Count(submitted, w.value)
    ensures w.None? ==> forall c :: Count(submitted, c) > 0 ==> Count(submitted, c) < required
    ensures w.Some? && Count(submitted, Other(w.value)) > 0 && Count(submitted, Other(w.value)) >= required
            ==> submitted != [] && submitted[0].choice == w.value
  {
    if submitted == [] then None
    else
      var first := submitted[0].choice;
      FirstIsCounted(submitted);
      if Count(submitted, first) >= required then Some(first)
      else if Count(submitted, Other(first)) > 0 && Count(submitted, Other(first)) >= required then Some(Other(first))
      else None
  }

  lemma FirstIsCounted(submitted: seq<Ballot>)
    requires submitted != []
    ensures Count(submitted, submitted[0].choice) > 0
  {
    if |submitted| > 1 {
      FirstIsCounted(submitted[..|submitted| - 1]);
    }
  }

  lemma CountSplit(submitted: seq<Ballot>)
    ensures Count(submitted, Approve) + Count(submitted, Reject) == |submitted|
  {
    if submitted != [] {
      CountSplit(submitted[..|submitted| - 1]);
    }
  }

  /** The loop that fills the tally record, followed by the search for an entry that reaches the quorum. */
  method FindWinner(submitted: seq<Ballot>, required: int) returns (winner: Option<Choice>)
    ensures winner == Winner(submitted, required)
  {
    var tallies: map<Choice, nat> := map[];
    var keys: seq<Choice> := [];
    for i := 0 to |submitted|
      invariant forall c :: c in tallies <==> Count(submitted[..i], c) > 0
      invariant forall c :: c in tallies ==> tallies[c] == Count(submitted[..i], c)
      invariant forall c :: c in keys <==> c in tallies
      invariant Distinct(keys)
      invariant i == 0 ==> keys == []
      invariant i > 0 ==> keys != [] && keys[0] == submitted[0].choice
    {
      var c := submitted[i].choice;
      assert submitted[..i + 1][..i] == submitted[..i];
      if c !in tallies {
        keys := keys + [c];
      }
      tallies := tallies[c := (if c in tallies then tallies[c] else 0) + 1];
    }
    assert submitted[..|submitted|] == submitted;
    winner := None;
    var k := 0;
    while k < |keys|
      invariant 0 <= k <= |keys|
      invariant winner.None? ==> forall j :: 0 <= j < k ==> tallies[keys[j]] < required
      invariant winner.Some? ==> k == |keys| && winner == Winner(submitted, required)
    {
      if tallies[keys[k]] >= required {
        winner := Some(keys[k]);
        k := |keys|;
      } else {
        k := k + 1;
      }
    }
    if winner.None? {
      assert forall c :: c in tallies ==> tallies[c] < required by {
        forall c | c in tallies
          ensures tallies[c] < required
        {
          assert c in keys;
        }
      }
    }
  }

  // ---- the snapshot counts exactly the recorded votes ----

  ghost function VotersIn(votes: Votes, order: seq<UserId>, c: Choice): set<UserId> {
    set v | v in order && v in votes && votes[v] == Some(c)
  }

  lemma VotersInSnoc(votes: Votes, init: seq<UserId>, v: UserId, c: Choice)
    requires v !in init
    ensures |VotersIn(votes, init + [v], c)|
            == |VotersIn(votes, init, c)| + (if v in votes && votes[v] == Some(c) then 1 else 0)
  {
    assert VotersIn(votes, init + [v], c)
           == VotersIn(votes, init, c) + (if v in votes && votes[v] == Some(c) then {v} else {});
  }

  lemma CountSnoc(submitted: seq<Ballot>, b: Ballot, c: Choice)
    ensures Count(submitted + [b], c) == Count(submitted, c) + (if b.choice == c then 1 else 0)
  {
    assert (submitted + [b])[..|submitted|] == submitted;
  }

  lemma {:induction false} CountIsVotersIn(votes: Votes, order: seq<UserId>, c: Choice)
    requires Distinct(order)
    ensures Count(Submitted(votes, order), c) == |VotersIn(votes, order, c)|
  {
    if order == [] {
      assert VotersIn(votes, order, c) == {};
    } else {
      var v := order[|order| - 1];
      var init := order[..|order| - 1];
      CountIsVotersIn(votes, init, c);
      assert order == init + [v];
      VotersInSnoc(votes, init, v, c);
      if v in votes && votes[v].Some? {
        CountSnoc(Submitted(votes, init), Ballot(v, votes[v].value), c);
      }
    }
  }

  lemma {:induction false} SnapshotCounts(votes: Votes, order: seq<UserId>, c: Choice)
    requires Lists(order, votes.Keys)
    ensures Count(Submitted(votes, order), c) == |VotersFor(votes, c)|
  {
    CountIsVotersIn(votes, order, c);
    assert VotersIn(votes, order, c) == VotersFor(votes, c);
  }

  /** A snapshot has a winner exactly when the recorded votes hold a quorum, in whatever order rows are returned. */
  lemma WinnerIffQuorum(votes: Votes, order: seq<UserId>, required: int)
    requires Lists(order, votes.Keys)
    ensures Winner(Submitted(votes, order), required).Some? <==> HoldsQuorum(votes, required)
    ensures Winner(Submitted(votes, order), required).Some?
            ==> Reaches(votes, Winner(Submitted(votes, order), required).value, required)
  {
    SnapshotCounts(votes, order, Approve);
    SnapshotCounts(votes, order, Reject);
    var w := Winner(Submitted(votes, order), required);
    if w.Some? {
      assert Reaches(votes, w.value, required);
    } else {
      forall c
        ensures !Reaches(votes, c, required)
      {
        assert c.Approve? || c.Reject?;
      }
    }
  }

  lemma VotersPartition(votes: Votes)
    ensures VotersFor(votes, Approve) !! VotersFor(votes, Reject)
    ensures VotersFor(votes, Approve) + VotersFor(votes, Reject) <= votes.Keys
    ensures |VotersFor(votes, Approve)| + |VotersFor(votes, Reject)| <= |votes.Keys|
    ensures |VotersFor(votes, Approve)| + |VotersFor(votes, Reject)| == |votes.Keys| <==> AllCast(votes)
  {
    var a, r := VotersFor(votes, Approve), VotersFor(votes, Reject);
    DisjointUnionSize(a, r);
    SubsetSize(a + r, votes.Keys);
    if AllCast(votes) {
      forall v | v in votes
        ensures v in a + r
      {
        assert votes[v].value.Approve? || votes[v].value.Reject?;
      }
      assert a + r == votes.Keys;
    } else {
      var v :| v in votes && votes[v].None?;
      SubsetSize(a + r, votes.Keys - {v});
    }
  }

  /** The test `submitted.length >= validatorVotes.length` says that every row has been cast. */
  lemma AllVotedIffAllCast(votes: Votes, order: seq<UserId>)
    requires Lists(order, votes.Keys)
    ensures |Submitted(votes, order)| >= |order| <==> AllCast(votes)
    ensures |Submitted(votes, order)| == |VotersFor(votes, Approve)| + |VotersFor(votes, Reject)|
  {
    CountSplit(Submitted(votes, order));
    SnapshotCounts(votes, order, Approve);
    SnapshotCounts(votes, order, Reject);
    ListsLength(order, votes.Keys);
    VotersPartition(votes);
  }

  // ---- what a strict majority requirement guarantees ----

  lemma MajorityExcludesBoth(votes: Votes, required: int)
    requires 2 * required > |votes.Keys|
    ensures !(Reaches(votes, Approve, required) && Reaches(votes, Reject, required))
  {
    VotersPartition(votes);
  }

  /**
   * The verdict does not depend on the order in which the rows come back if and only if
   * the two choices have not both reached the requirement.
   */
  lemma OrderIndependentIff(votes: Votes, required: int)
    ensures (forall o1, o2 :: Lists(o1, votes.Keys) && Lists(o2, votes.Keys)
              ==> Winner(Submitted(votes, o1), required) == Winner(Submitted(votes, o2), required))
            <==> !(Reaches(votes, Approve, required) && Reaches(votes, Reject, required))
  {
    if Reaches(votes, Approve, required) && Reaches(votes, Reject, required) {
      var a :| a in VotersFor(votes, Approve);
      var r :| r in VotersFor(votes, Reject);
      var oa := ListingFrom(votes.Keys, a);
      var or := ListingFrom(votes.Keys, r);
      BothReach(votes, oa, Approve, required);
      BothReach(votes, or, Reject, required);
    } else {
      forall o1, o2 | Lists(o1, votes.Keys) && Lists(o2, votes.Keys)
        ensures Winner(Submitted(votes, o1), required) == Winner(Submitted(votes, o2), required)
      {
        WinnerIffQuorum(votes, o1, required);
        WinnerIffQuorum(votes, o2, required);
      }
    }
  }

  lemma SubmittedHead(votes: Votes, order: seq<UserId>)
    requires order != [] && order[0] in votes && votes[order[0]].Some?
    ensures Submitted(votes, order) != [] && Submitted(votes, order)[0] == Ballot(order[0], votes[order[0]].value)
  {
    if |order| > 1 {
      SubmittedHead(votes, order[..|order| - 1]);
    }
  }

  lemma BothReach(votes: Votes, order: seq<UserId>, c: Choice, required: int)
    requires Lists(order, votes.Keys) && order != []
    requires order[0] in votes && votes[order[0]] == Some(c)
    requires Reaches(votes, Approve, required) && Reaches(votes, Reject, required)
    ensures Winner(Submitted(votes, order), required) == Some(c)
  {
    SubmittedHead(votes, order);
    SnapshotCounts(votes, order, Approve);
    SnapshotCounts(votes, order, Reject);
    assert Other(Approve) == Reject && Other(Reject) == Approve;
  }

  /** `later` is what `votes` becomes when outstanding votes come in and cast ones stay as they are. */
  ghost predicate Completes(votes: Votes, later: Votes) {
    && later.Keys == votes.Keys
    && forall v :: v in votes && votes[v].Some? ==> later[v] == votes[v]
  }

  /** With 2 * required above the number of assigned votes, an early winner wins under every completion. */
  lemma EarlyWinnerKept(votes: Votes, order: seq<UserId>, later: Votes, order': seq<UserId>, required: int)
    requires Lists(order, votes.Keys) && Lists(order', votes.Keys)
    requires 2 * required > |votes.Keys|
    requires Winner(Submitted(votes, order), required).Some?
    requires Completes(votes, later)
    ensures Winner(Submitted(later, order'), required) == Winner(Submitted(votes, order), required)
  {
    WinnerIffQuorum(votes, order, required);
    var w := Winner(Submitted(votes, order), required).value;
    SubsetSize(VotersFor(votes, w), VotersFor(later, w));
    assert Reaches(later, w, required);
    WinnerIffQuorum(later, order', required);
    MajorityExcludesBoth(later, required);
  }

  // ---- resolveQuorum's decision on a snapshot ----

  datatype Resolution = AlreadyFinal | Waiting | Finalize(winner: Choice) | Escalate

  function Resolve(decided: bool, submitted: seq<Ballot>, rows: nat, required: int): Resolution {
    if decided then AlreadyFinal
    else if |submitted| == 0 then Waiting
    else
      var w := Winner(submitted, required);
      if w.Some? then Finalize(w.value)
      else if |submitted| >= rows then Escalate
      else Waiting
  }

  /** On an undecided proof: finalize exactly on a quorum, escalate exactly on a full ballot without one. */
  lemma ResolveOutcome(votes: Votes, order: seq<UserId>, required: int)
    requires Lists(order, votes.Keys)
    ensures var r := Resolve(false, Submitted(votes, order), |order|, required);
            && (r.Finalize? <==> HoldsQuorum(votes, required))
            && (r.Finalize? ==> Reaches(votes, r.winner, required))
            && (r.Escalate? <==> votes.Keys != {} && AllCast(votes) && !HoldsQuorum(votes, required))
  {
    WinnerIffQuorum(votes, order, required);
    AllVotedIffAllCast(votes, order);
    ListsLength(order, votes.Keys);
    if |Submitted(votes, order)| == 0 {
      VotersPartition(votes);
    }
  }

  /** With a strict majority, a full ballot finalizes or escalates, never both, whatever the row order. */
  lemma FullBallotResolves(votes: Votes, o1: seq<UserId>, o2: seq<UserId>, required: int)
    requires Lists(o1, votes.Keys) && Lists(o2, votes.Keys)
    requires votes.Keys != {} && AllCast(votes) && 2 * required > |votes.Keys|
    ensures var r := Resolve(false, Submitted(votes, o1), |o1|, required);
            && (r.Finalize? || r.Escalate?)
            && Resolve(false, Submitted(votes, o2), |o2|, required) == r
  {
    ResolveOutcome(votes, o1, required);
    ResolveOutcome(votes, o2, required);
    MajorityExcludesBoth(votes, required);
  }
}
