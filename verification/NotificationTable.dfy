/** The notification drain as it runs on the table when nothing else interferes. */
module NotificationTable {
  import opened Common
  import opened Backoff
  import opened Batch
  import opened NotificationOutbox

  /**
   * One enqueue more and one attempt more. A success is SENT; a failure waits for its back-off, or is dead-lettered if
   * that was the last attempt.
   */
  predicate Dispatched(before: Row, after: Row, ok: bool, maxAttempts: int, clock: int) {
    var attempts := before.attempts + 1;
    after == if ok then Row(SENT, attempts, before.nextAttemptAt, before.enqueues + 1)
             else if attempts < maxAttempts
             then Row(PENDING, attempts, clock + NextBackoffMs(attempts), before.enqueues + 1)
             else Row(DEAD_LETTER, attempts, before.nextAttemptAt, before.enqueues + 1)
  }

  /** What a drain does to the rows: those it fetched are dispatched, and no others change. */
  ghost predicate Drained(before: map<OutboxId, Row>, after: map<OutboxId, Row>, fetched: seq<OutboxId>,
                          up: set<OutboxId>, maxAttempts: int, clock: int) {
    && after.Keys == before.Keys
    && (forall id :: id in before && id !in fetched ==> after[id] == before[id])
    && (forall id :: id in fetched ==> id in before && Dispatched(before[id], after[id], id in up, maxAttempts, clock))
  }

  class NotificationTable {
    var rows: map<OutboxId, Row>
    var createdAt: map<OutboxId, int>

    ghost predicate Valid()
      reads this
    {
      rows.Keys <= createdAt.Keys
    }

    constructor ()
      ensures Valid() && rows == map[]
    {
      rows, createdAt := map[], map[];
    }

    static function DueIds(rows: map<OutboxId, Row>, now: int): set<OutboxId> {
      set id | id in rows && rows[id].status.PENDING? && rows[id].nextAttemptAt <= now
    }

    static lemma FetchedWhen(rows: map<OutboxId, Row>, now: int, id: OutboxId)
      ensures id in DueIds(rows, now) <==> id in rows && rows[id].status == PENDING && rows[id].nextAttemptAt <= now
    {}

    static function WithStatus(rows: map<OutboxId, Row>, status: Status): set<OutboxId> {
      set id | id in rows && rows[id].status == status
    }

    static function LastChance(rows: map<OutboxId, Row>, maxAttempts: int): set<OutboxId> {
      set id | id in rows && rows[id].attempts + 1 >= maxAttempts
    }

    /** A due row after this drain: SENT, dead-lettered or pushed back, with one more enqueue made for it. */
    static function Handled(r: Row, id: OutboxId, up: set<OutboxId>, maxAttempts: int, clock: int): Row {
      var tried := r.(enqueues := r.enqueues + 1);
      if id in up then tried.(status := SENT, attempts := r.attempts + 1)
      else FailedRow(tried, Snapshot(id, r.attempts), maxAttempts, clock)
    }

    static function HandledAll(rows: map<OutboxId, Row>, ids: seq<OutboxId>, up: set<OutboxId>, maxAttempts: int,
                               clock: int): map<OutboxId, Row> {
      if ids == [] then rows
      else
        var before := HandledAll(rows, ids[..|ids| - 1], up, maxAttempts, clock);
        var id := ids[|ids| - 1];
        if id in before then before[id := Handled(before[id], id, up, maxAttempts, clock)] else before
    }

    static lemma {:induction false} HandledAllAt(rows: map<OutboxId, Row>, ids: seq<OutboxId>, up: set<OutboxId>,
                                                 maxAttempts: int, clock: int)
      requires Distinct(ids) && forall i :: 0 <= i < |ids| ==> ids[i] in rows
      ensures var after := HandledAll(rows, ids, up, maxAttempts, clock);
              && after.Keys == rows.Keys
              && (forall id :: id in rows && id !in ids ==> after[id] == rows[id])
              && (forall id :: id in rows && id in ids ==> after[id] == Handled(rows[id], id, up, maxAttempts, clock))
    {
      if ids != [] {
        HandledAllAt(rows, ids[..|ids| - 1], up, maxAttempts, clock);
        assert ids == ids[..|ids| - 1] + [ids[|ids| - 1]];
      }
    }

    static lemma HandledSnoc(rows: map<OutboxId, Row>, ids: seq<OutboxId>, id: OutboxId, up: set<OutboxId>,
                             maxAttempts: int, clock: int)
      requires Distinct(ids) && (forall i :: 0 <= i < |ids| ==> ids[i] in rows) && id in rows && id !in ids
      ensures var before := HandledAll(rows, ids, up, maxAttempts, clock);
              && id in before && before[id] == rows[id]
              && HandledAll(rows, ids + [id], up, maxAttempts, clock)
                  == before[id := Handled(rows[id], id, up, maxAttempts, clock)]
    {
      HandledAllAt(rows, ids, up, maxAttempts, clock);
      assert (ids + [id])[..|ids|] == ids;
    }

    /** Claim, enqueue, record: one iteration of the loop. */
    method Dispatch(id: OutboxId, clock: int, maxAttempts: int, up: set<OutboxId>, result: DrainResult)
      returns (r: DrainResult)
      requires id in rows && rows[id].status.PENDING?
      modifies this`rows
      ensures rows == old(rows)[id := Handled(old(rows)[id], id, up, maxAttempts, clock)]
      ensures r == if id in up then result.(claimed := result.claimed + 1, sent := result.sent + 1)
                   else if id in LastChance(old(rows), maxAttempts)
                   then result.(claimed := result.claimed + 1, deadLettered := result.deadLettered + 1)
                   else result.(claimed := result.claimed + 1, retried := result.retried + 1)
    {
      rows := rows[id := rows[id].(status := PROCESSING)];
      r := result.(claimed := result.claimed + 1);
      var attempts := rows[id].attempts + 1;
      rows := rows[id := rows[id].(enqueues := rows[id].enqueues + 1)];
      if id in up {
        rows := rows[id := rows[id].(status := SENT, attempts := attempts)];
        r := r.(sent := r.sent + 1);
      } else if attempts >= maxAttempts {
        rows := rows[id := rows[id].(status := DEAD_LETTER, attempts := attempts)];
        r := r.(deadLettered := r.deadLettered + 1);
      } else {
        rows := rows[id := rows[id].(status := PENDING, attempts := attempts,
            nextAttemptAt := clock + NextBackoffMs(attempts))];
        r := r.(retried := r.retried + 1);
      }
    }

    method DispatchAll(candidates: seq<OutboxId>, clock: int, maxAttempts: int, up: set<OutboxId>)
      returns (r: DrainResult)
      requires Distinct(candidates)
      requires forall i :: 0 <= i < |candidates| ==> candidates[i] in rows && rows[candidates[i]].status.PENDING?
      modifies this`rows
      ensures Drained(old(rows), rows, candidates, up, maxAttempts, clock)
      ensures r.claimed == |candidates| == r.sent + r.retried + r.deadLettered
      ensures r.sent == |Among(candidates, WithStatus(rows, SENT))|
      ensures r.deadLettered == |Among(candidates, WithStatus(rows, DEAD_LETTER))|
    {
      ghost var doomed := LastChance(rows, maxAttempts) - up;
      r := DrainResult(0, 0, 0, 0);
      var i := 0;
      while i < |candidates|
        invariant 0 <= i <= |candidates|
        invariant rows == HandledAll(old(rows), candidates[..i], up, maxAttempts, clock)
        invariant r.claimed == i == r.sent + r.retried + r.deadLettered
        invariant r.sent == |Keep(candidates[..i], up)| && r.deadLettered == |Keep(candidates[..i], doomed)|
      {
        var id := candidates[i];
        assert candidates[..i + 1] == candidates[..i] + [id];
        HandledSnoc(old(rows), candidates[..i], id, up, maxAttempts, clock);
        KeepSnoc(candidates[..i], id, up);
        KeepSnoc(candidates[..i], id, doomed);
        if rows[id].status.PENDING? {
          r := Dispatch(id, clock, maxAttempts, up, r);
        }
        i := i + 1;
      }
      assert candidates[..i] == candidates;
      HandledAllDrained(old(rows), candidates, up, maxAttempts, clock);
      KeepSize(candidates, up);
      KeepSize(candidates, doomed);
    }

    static lemma HandledDispatched(r: Row, id: OutboxId, up: set<OutboxId>, maxAttempts: int, clock: int)
      ensures Dispatched(r, Handled(r, id, up, maxAttempts, clock), id in up, maxAttempts, clock)
    {}

    static lemma HandledAllDrained(rows: map<OutboxId, Row>, ids: seq<OutboxId>, up: set<OutboxId>, maxAttempts: int,
                                   clock: int)
      requires Distinct(ids) && forall i :: 0 <= i < |ids| ==> ids[i] in rows
      ensures var after := HandledAll(rows, ids, up, maxAttempts, clock);
              && Drained(rows, after, ids, up, maxAttempts, clock)
              && Among(ids, up) == Among(ids, WithStatus(after, SENT))
              && Among(ids, LastChance(rows, maxAttempts) - up) == Among(ids, WithStatus(after, DEAD_LETTER))
    {
      var after := HandledAll(rows, ids, up, maxAttempts, clock);
      HandledAllAt(rows, ids, up, maxAttempts, clock);
      forall id | id in ids
        ensures id in rows && id in after && Dispatched(rows[id], after[id], id in up, maxAttempts, clock)
      {
        HandledDispatched(rows[id], id, up, maxAttempts, clock);
      }
      DrainedStatuses(rows, after, ids, up, maxAttempts, clock);
    }

    static lemma DrainedStatuses(rows: map<OutboxId, Row>, after: map<OutboxId, Row>, ids: seq<OutboxId>,
                                 up: set<OutboxId>, maxAttempts: int, clock: int)
      requires Drained(rows, after, ids, up, maxAttempts, clock)
      ensures Among(ids, up) == Among(ids, WithStatus(after, SENT))
      ensures Among(ids, LastChance(rows, maxAttempts) - up) == Among(ids, WithStatus(after, DEAD_LETTER))
    {}

    /** A whole drain: exactly the oldest due rows are handled, once each, and the result counts what became of them. */
    method DrainNotificationOutbox(now: int, clock: int, batchSize: nat, maxAttempts: int, up: set<OutboxId>)
      returns (r: DrainResult, ghost fetched: seq<OutboxId>)
      requires Valid()
      modifies this`rows
      ensures Valid() && rows.Keys == old(rows.Keys)
      ensures Oldest(createdAt, fetched, DueIds(old(rows), now), batchSize)
      ensures Drained(old(rows), rows, fetched, up, maxAttempts, clock)
      ensures r.claimed == |fetched| == r.sent + r.retried + r.deadLettered
      ensures r.sent == |Among(fetched, WithStatus(rows, SENT))|
      ensures r.deadLettered == |Among(fetched, WithStatus(rows, DEAD_LETTER))|
    {
      var candidates := TakeOldest(createdAt, DueIds(rows, now), batchSize);
      fetched := candidates;
      r := DispatchAll(candidates, clock, maxAttempts, up);
    }
  }
}
