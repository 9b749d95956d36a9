/** The sweeper and the reward worker as they run on the table when nothing else interferes. */
module PayoutTable {
  import opened Common
  import opened Backoff
  import opened Batch
  import opened PayoutOutbox

  datatype JobOutcome = Skipped | ProofNotFound | WrongState | PaymentFailed | Paid

  /** A failed enqueue costs an attempt: the row waits for its back-off, or has FAILED if that was its last. */
  predicate PushedBack(before: Row, after: Row, maxAttempts: int, clock: int) {
    var attempts := before.attempts + 1;
    after == if attempts < maxAttempts
             then Row(PENDING, attempts, clock + NextBackoffMs(attempts), before.createdAt)
             else Row(FAILED, attempts, before.nextAttemptAt, before.createdAt)
  }

  /** A stale row with attempts left is PENDING and due at once, with one more; the others have FAILED. */
  predicate TakenBack(before: Row, after: Row, maxAttempts: int, clock: int) {
    after == if before.attempts < maxAttempts
             then Row(PENDING, before.attempts + 1, clock, before.createdAt)
             else Row(FAILED, before.attempts, before.nextAttemptAt, before.createdAt)
  }

  /** What a drain does to the rows: those it fetched, but for the enqueued, and those it found stale, and no others. */
  ghost predicate Drained(before: map<PayoutId, Row>, after: map<PayoutId, Row>, fetched: seq<PayoutId>,
                          up: set<PayoutId>, stale: seq<PayoutId>, maxAttempts: int, clock: int) {
    && after.Keys == before.Keys
    && (forall id :: id in before && (id !in fetched || id in up) && id !in stale ==> after[id] == before[id])
    && (forall id :: id in fetched && id !in up ==>
          id in before && PushedBack(before[id], after[id], maxAttempts, clock))
    && (forall id :: id in stale ==> id in before && TakenBack(before[id], after[id], maxAttempts, clock))
  }

  class PayoutTable {
    var rows: map<PayoutId, Row>
    var queue: set<PayoutId>
    var rewarded: set<PayoutId>  // payouts whose proof has its `rewardedAt` set

    constructor ()
      ensures rows == map[] && queue == {} && rewarded == {}
    {
      rows, queue, rewarded := map[], {}, {};
    }

    static function CreatedAt(rows: map<PayoutId, Row>): map<nat, int> {
      map id | id in rows :: rows[id].createdAt
    }

    static function DueIds(rows: map<PayoutId, Row>, now: int): set<PayoutId> {
      set id | id in rows && rows[id].status.PENDING? && rows[id].nextAttemptAt <= now
    }

    static function OverdueIds(rows: map<PayoutId, Row>, now: int): set<PayoutId> {
      set id | id in rows && rows[id].status.PROCESSING? && rows[id].createdAt < now - STALE_PROCESSING_MS
    }

    /** A PENDING row is fetched once its time has come, a PROCESSING one five minutes after it was created. */
    static lemma FetchedWhen(rows: map<PayoutId, Row>, now: int, id: PayoutId)
      ensures id in DueIds(rows, now) <==> id in rows && rows[id].status == PENDING && rows[id].nextAttemptAt <= now
      ensures id in OverdueIds(rows, now) <==>
                id in rows && rows[id].status == PROCESSING && rows[id].createdAt + 300000 < now
    {}

    static function WithStatus(rows: map<PayoutId, Row>, status: PayoutStatus): set<PayoutId> {
      set id | id in rows && rows[id].status == status
    }

    /** Rows whose next failed enqueue is their last. */
    static function LastChance(rows: map<PayoutId, Row>, maxAttempts: int): set<PayoutId> {
      set id | id in rows && rows[id].attempts + 1 >= maxAttempts
    }

    static function Exhausted(rows: map<PayoutId, Row>, maxAttempts: int): set<PayoutId> {
      set id | id in rows && rows[id].attempts >= maxAttempts
    }

    /** What the pending loop leaves of a fetched row. */
    static function Tried(r: Row, id: PayoutId, up: set<PayoutId>, maxAttempts: int, clock: int): Row {
      if id in up then r else EnqueueFailedRow(r, Snapshot(id, r.attempts), maxAttempts, clock)
    }

    /** The pending loop on the fetched ids, in order. */
    static function TriedAll(rows: map<PayoutId, Row>, ids: seq<PayoutId>, up: set<PayoutId>, maxAttempts: int,
                             clock: int): map<PayoutId, Row> {
      if ids == [] then rows
      else
        var before := TriedAll(rows, ids[..|ids| - 1], up, maxAttempts, clock);
        var id := ids[|ids| - 1];
        if id in before then before[id := Tried(before[id], id, up, maxAttempts, clock)] else before
    }

    static lemma {:induction false} TriedAllAt(rows: map<PayoutId, Row>, ids: seq<PayoutId>, up: set<PayoutId>,
                                               maxAttempts: int, clock: int)
      requires Distinct(ids) && forall i :: 0 <= i < |ids| ==> ids[i] in rows
      ensures var after := TriedAll(rows, ids, up, maxAttempts, clock);
              && after.Keys == rows.Keys
              && (forall id :: id in rows && id !in ids ==> after[id] == rows[id])
              && (forall id :: id in rows && id in ids ==> after[id] == Tried(rows[id], id, up, maxAttempts, clock))
    {
      if ids != [] {
        TriedAllAt(rows, ids[..|ids| - 1], up, maxAttempts, clock);
        assert ids == ids[..|ids| - 1] + [ids[|ids| - 1]];
      }
    }

    static lemma TriedAllDrained(rows: map<PayoutId, Row>, ids: seq<PayoutId>, up: set<PayoutId>, maxAttempts: int,
                                 clock: int)
      requires Distinct(ids) && forall i :: 0 <= i < |ids| ==> ids[i] in rows && rows[ids[i]].status == PENDING
      ensures var after := TriedAll(rows, ids, up, maxAttempts, clock);
              && Drained(rows, after, ids, up, [], maxAttempts, clock)
              && Among(ids, LastChance(rows, maxAttempts) - up) == Among(ids, WithStatus(after, FAILED))
    {
      TriedAllAt(rows, ids, up, maxAttempts, clock);
    }

    static lemma TriedSnoc(rows: map<PayoutId, Row>, ids: seq<PayoutId>, id: PayoutId, up: set<PayoutId>,
                           maxAttempts: int, clock: int)
      requires Distinct(ids) && (forall i :: 0 <= i < |ids| ==> ids[i] in rows) && id in rows && id !in ids
      ensures var before := TriedAll(rows, ids, up, maxAttempts, clock);
              && id in before && before[id] == rows[id]
              && TriedAll(rows, ids + [id], up, maxAttempts, clock)
                  == before[id := Tried(rows[id], id, up, maxAttempts, clock)]
    {
      TriedAllAt(rows, ids, up, maxAttempts, clock);
      assert (ids + [id])[..|ids|] == ids;
    }

    /** One iteration of the pending loop. */
    method EnqueueOne(id: PayoutId, clock: int, maxAttempts: int, up: set<PayoutId>)
      returns (enqueued: bool, dead: bool)
      requires id in rows && rows[id].status.PENDING?
      modifies this`rows, this`queue
      ensures rows == old(rows)[id := Tried(old(rows)[id], id, up, maxAttempts, clock)]
      ensures queue == if id in up then old(queue) + {id} else old(queue)
      ensures enqueued <==> id in up
      ensures dead <==> id in LastChance(old(rows), maxAttempts) - up
    {
      enqueued, dead := false, false;
      if rows[id].status.PENDING? {
        if id in up {
          queue := queue + {id};
          enqueued := true;
        } else {
          var attempts := rows[id].attempts + 1;
          if attempts >= maxAttempts {
            rows := rows[id := rows[id].(status := FAILED, attempts := attempts)];
            dead := true;
          } else {
            rows := rows[id := rows[id].(attempts := attempts, nextAttemptAt := clock + NextBackoffMs(attempts))];
          }
        }
      }
    }

    /** The pending loop over fetched rows; `up` says for which ids the enqueue succeeds. */
    method EnqueuePending(candidates: seq<PayoutId>, clock: int, maxAttempts: int, up: set<PayoutId>)
      returns (enqueued: nat, deadLettered: nat)
      requires Distinct(candidates)
      requires forall i :: 0 <= i < |candidates| ==> candidates[i] in rows && rows[candidates[i]].status.PENDING?
      modifies this`rows, this`queue
      ensures Drained(old(rows), rows, candidates, up, [], maxAttempts, clock)
      ensures queue == old(queue) + Among(candidates, up)
      ensures enqueued == |Among(candidates, up)|
      ensures deadLettered == |Among(candidates, WithStatus(rows, FAILED))|
    {
      enqueued, deadLettered := 0, 0;
      ghost var doomed := LastChance(rows, maxAttempts) - up;
      var i := 0;
      while i < |candidates|
        invariant 0 <= i <= |candidates|
        invariant rows == TriedAll(old(rows), candidates[..i], up, maxAttempts, clock)
        invariant enqueued == |Keep(candidates[..i], up)| && deadLettered == |Keep(candidates[..i], doomed)|
        invariant forall id :: id in queue <==> id in old(queue) || id in Keep(candidates[..i], up)
      {
        var id := candidates[i];
        assert candidates[..i + 1] == candidates[..i] + [id];
        TriedSnoc(old(rows), candidates[..i], id, up, maxAttempts, clock);
        KeepSnoc(candidates[..i], id, up);
        KeepSnoc(candidates[..i], id, doomed);
        var done, dead := EnqueueOne(id, clock, maxAttempts, up);
        if done {
          enqueued := enqueued + 1;
        }
        if dead {
          deadLettered := deadLettered + 1;
        }
        i := i + 1;
      }
      assert candidates[..i] == candidates;
      TriedAllDrained(old(rows), candidates, up, maxAttempts, clock);
      KeepSize(candidates, up);
      KeepSize(candidates, doomed);
    }

    /** What the stale loop writes over a row it fetched. */
    static function Reclaimed(r: Row, maxAttempts: int, clock: int): Row {
      if r.attempts >= maxAttempts then r.(status := FAILED)
      else r.(status := PENDING, attempts := r.attempts + 1, nextAttemptAt := clock)
    }

    /** One iteration of the stale loop. */
    method ReclaimOne(id: PayoutId, clock: int, maxAttempts: int) returns (dead: bool)
      requires id in rows
      modifies this`rows
      ensures rows == old(rows)[id := Reclaimed(old(rows)[id], maxAttempts, clock)]
      ensures dead <==> id in Exhausted(old(rows), maxAttempts)
    {
      dead := rows[id].attempts >= maxAttempts;
      if dead {
        rows := rows[id := rows[id].(status := FAILED)];
      } else {
        rows := rows[id := rows[id].(status := PENDING, attempts := rows[id].attempts + 1, nextAttemptAt := clock)];
      }
    }

    method ReclaimStale(stale: seq<PayoutId>, clock: int, maxAttempts: int)
      returns (reclaimed: nat, deadLettered: nat)
      requires Distinct(stale) && forall i :: 0 <= i < |stale| ==> stale[i] in rows
      modifies this`rows
      ensures Drained(old(rows), rows, [], {}, stale, maxAttempts, clock)
      ensures reclaimed == |Among(stale, WithStatus(rows, PENDING))|
      ensures deadLettered == |Among(stale, WithStatus(rows, FAILED))|
    {
      reclaimed, deadLettered := 0, 0;
      ghost var doomed := Exhausted(rows, maxAttempts);
      var i := 0;
      while i < |stale|
        invariant 0 <= i <= |stale|
        invariant rows.Keys == old(rows.Keys)
        invariant forall id :: id in rows && id !in stale[..i] ==> rows[id] == old(rows)[id]
        invariant forall id :: id in rows && id in stale[..i] ==>
            rows[id] == Reclaimed(old(rows)[id], maxAttempts, clock)
        invariant deadLettered == |Keep(stale[..i], doomed)| && reclaimed + deadLettered == i
      {
        var id := stale[i];
        assert stale[..i + 1] == stale[..i] + [id] && id !in stale[..i];
        KeepSnoc(stale[..i], id, doomed);
        var dead := ReclaimOne(id, clock, maxAttempts);
        if dead {
          deadLettered := deadLettered + 1;
        } else {
          reclaimed := reclaimed + 1;
        }
        i := i + 1;
      }
      assert stale[..i] == stale;
      KeepSize(stale, doomed);
      Split(rows, stale, doomed);
    }

    static lemma Split(after: map<PayoutId, Row>, stale: seq<PayoutId>, doomed: set<PayoutId>)
      requires Distinct(stale)
      requires forall id :: id in stale ==> id in after && after[id].status == if id in doomed then FAILED else PENDING
      ensures |Among(stale, doomed)| == |Among(stale, WithStatus(after, FAILED))|
      ensures |Among(stale, doomed)| + |Among(stale, WithStatus(after, PENDING))| == |stale|
    {
      var a, b := Among(stale, doomed), Among(stale, WithStatus(after, PENDING));
      assert a == Among(stale, WithStatus(after, FAILED));
      DisjointUnionSize(a, b);
      ListsLength(stale, a + b);
    }

    /**
     * A whole drain: due rows, oldest first, are enqueued or pushed back; then stale PROCESSING rows are
     * made PENDING again or given up. The two groups are disjoint, nothing else changes, and the counters tell what
     * became of the rows.
     */
    method DrainRewardPayouts(now: int, clock: int, batchSize: nat, maxAttempts: int, up: set<PayoutId>)
      returns (sweep: Sweep, ghost fetched: seq<PayoutId>, ghost stale: seq<PayoutId>)
      modifies this`rows, this`queue
      ensures Oldest(CreatedAt(old(rows)), fetched, DueIds(old(rows), now), batchSize)
      ensures PartOf(stale, OverdueIds(old(rows), now), batchSize)
      ensures Drained(old(rows), rows, fetched, up, stale, maxAttempts, clock)
      ensures queue == old(queue) + Among(fetched, up)
      ensures sweep.enqueued == |Among(fetched, up)|
      ensures sweep.reclaimed == |Among(stale, WithStatus(rows, PENDING))|
      ensures sweep.deadLettered == |Among(fetched + stale, WithStatus(rows, FAILED))|
    {
      var candidates := TakeOldest(CreatedAt(rows), DueIds(rows, now), batchSize);
      fetched := candidates;
      var enqueued, dead := EnqueuePending(candidates, clock, maxAttempts, up);
      ghost var tried := rows;
      var found := TakeAny(OverdueIds(rows, now), batchSize);
      OverdueStay(old(rows), rows, fetched, up, maxAttempts, now, clock);
      StaleApart(old(rows), rows, fetched, found, now, batchSize);
      stale := found;
      var reclaimed, dead2 := ReclaimStale(found, clock, maxAttempts);
      BothLoops(old(rows), tried, rows, fetched, up, stale, maxAttempts, clock);
      GivenUp(tried, rows, fetched, stale);
      sweep := Sweep(enqueued, reclaimed, dead + dead2);
    }

    /** The pending loop makes no row overdue, and overdue rows are not in it. */
    static lemma OverdueStay(before: map<PayoutId, Row>, tried: map<PayoutId, Row>, fetched: seq<PayoutId>,
                             up: set<PayoutId>, maxAttempts: int, now: int, clock: int)
      requires Drained(before, tried, fetched, up, [], maxAttempts, clock)
      requires forall id :: id in fetched ==> id in before && before[id].status == PENDING
      ensures OverdueIds(tried, now) == OverdueIds(before, now)
      ensures forall id :: id in fetched ==> id !in OverdueIds(tried, now)
    {}

    static lemma StaleApart(before: map<PayoutId, Row>, tried: map<PayoutId, Row>, fetched: seq<PayoutId>,
                            stale: seq<PayoutId>, now: int, batchSize: nat)
      requires OverdueIds(tried, now) == OverdueIds(before, now)
      requires forall id :: id in fetched ==> id !in OverdueIds(tried, now)
      requires PartOf(stale, OverdueIds(tried, now), batchSize)
      ensures PartOf(stale, OverdueIds(before, now), batchSize) && Distinct(stale)
      ensures forall i :: 0 <= i < |stale| ==> stale[i] in tried
      ensures forall id :: id in stale ==> id !in fetched
    {}

    static lemma BothLoops(before: map<PayoutId, Row>, tried: map<PayoutId, Row>, after: map<PayoutId, Row>,
                           fetched: seq<PayoutId>, up: set<PayoutId>, stale: seq<PayoutId>, maxAttempts: int,
                           clock: int)
      requires Drained(before, tried, fetched, up, [], maxAttempts, clock)
      requires Drained(tried, after, [], {}, stale, maxAttempts, clock)
      requires forall id :: id in stale ==> id !in fetched
      ensures Drained(before, after, fetched, up, stale, maxAttempts, clock)
    {}

    /** A drain leaves no choice of the rows. */
    static lemma OneResult(before: map<PayoutId, Row>, a: map<PayoutId, Row>, b: map<PayoutId, Row>,
                           fetched: seq<PayoutId>, up: set<PayoutId>, stale: seq<PayoutId>, maxAttempts: int,
                           clock: int)
      requires Drained(before, a, fetched, up, stale, maxAttempts, clock)
      requires Drained(before, b, fetched, up, stale, maxAttempts, clock)
      ensures a == b
    {
      forall id | id in before
        ensures a[id] == b[id]
      {}
    }

    /** The rows given up by a drain are those of its two loops. */
    static lemma GivenUp(tried: map<PayoutId, Row>, after: map<PayoutId, Row>, fetched: seq<PayoutId>,
                         stale: seq<PayoutId>)
      requires forall id :: id in stale ==> id !in fetched
      requires forall id :: id in fetched ==> id in tried && id in after && after[id] == tried[id]
      ensures |Among(fetched + stale, WithStatus(after, FAILED))|
              == |Among(fetched, WithStatus(tried, FAILED))| + |Among(stale, WithStatus(after, FAILED))|
    {
      var a, b := Among(fetched, WithStatus(tried, FAILED)), Among(stale, WithStatus(after, FAILED));
      DisjointUnionSize(a, b);
      assert a + b == Among(fetched + stale, WithStatus(after, FAILED));
    }

    /** One job of the reward worker; `paid` says whether submitReward succeeds. */
    method ProcessPayout(id: PayoutId, proof: ProofRead, paid: bool) returns (r: JobOutcome, submitted: bool)
      modifies this`rows, this`rewarded
      ensures rewarded == if r.Paid? then old(rewarded) + {id} else old(rewarded)
      ensures r.Skipped? <==> id !in old(rows) || !old(rows)[id].status.PENDING?
      ensures r.Skipped? ==> rows == old(rows) && !submitted
      ensures !r.Skipped? ==>
                && id in old(rows) && id in rows && rows == old(rows)[id := rows[id]]
                && (r.ProofNotFound? <==> proof.ProofMissing?)
                && (r.WrongState? <==> proof.ProofNotApproved?)
                && (submitted <==> proof.ProofApproved?)
                && (r.Paid? <==> submitted && paid)
                && rows[id] == match r
                   case Paid => old(rows)[id].(status := PAID)
                   case PaymentFailed => old(rows)[id].(status := FAILED, attempts := old(rows)[id].attempts + 1)
                   case WrongState => old(rows)[id].(status := FAILED)
                   case _ => old(rows)[id].(status := PROCESSING)
    {
      submitted := false;
      if id !in rows || !rows[id].status.PENDING? {
        return Skipped, false;
      }
      rows := rows[id := rows[id].(status := PROCESSING)];
      if proof.ProofMissing? {
        return ProofNotFound, false;
      }
      if proof.ProofNotApproved? {
        rows := rows[id := rows[id].(status := FAILED)];
        return WrongState, false;
      }
      submitted := true;
      if !paid {
        rows := rows[id := rows[id].(status := FAILED, attempts := rows[id].attempts + 1)];
        return PaymentFailed, true;
      }
      rows := rows[id := rows[id].(status := PAID)];
      rewarded := rewarded + {id};
      r := Paid;
    }
  }
}
