/**
 * Drains and jobs of the interleaved outbox with nothing else in between: they do to the rows what they do on the
 * table. And, whatever is in between, what a PAID row says.
 */
module PayoutAlone {
  import opened Common
  import opened Backoff
  import opened Batch
  import opened PayoutOutbox
  import opened PayoutTable

  /** A run of call `k` and of no other. */
  ghost predicate Only(es: seq<Event>, k: nat) {
    forall i :: 0 <= i < |es| ==> es[i].Step? && es[i].k == k
  }

  ghost predicate RunsOnly(x: System, es: seq<Event>, y: System, k: nat) {
    Runs(x, es, y) && Only(es, k)
  }

  lemma {:induction false} RunsJoin(x: System, es: seq<Event>, y: System, fs: seq<Event>, z: System, k: nat)
    requires RunsOnly(x, es, y, k) && RunsOnly(y, fs, z, k)
    ensures RunsOnly(x, es + fs, z, k)
    decreases es
  {
    if es == [] {
      assert es + fs == fs;
    } else {
      assert (es + fs)[1..] == es[1..] + fs && (es + fs)[0] == es[0];
      assert Only(es[1..], k);
      RunsJoin(Apply(x, es[0]), es[1..], y, fs, z, k);
    }
  }

  /** One step of call `k` after a run of it. */
  lemma StepsOn(x: System, es: seq<Event>, y: System, k: nat, o: Oracle)
    requires RunsOnly(x, es, y, k) && k in y.calls && OracleOk(y, y.calls[k], o)
    ensures Enabled(y, Step(k, o)) && RunsOnly(x, es + [Step(k, o)], Apply(y, Step(k, o)), k)
  {
    var z := Apply(y, Step(k, o));
    assert ([Step(k, o)])[1..] == [] && Runs(z, [], z);
    RunsJoin(x, es, y, [Step(k, o)], z, k);
  }

  // ---- the pending loop ----

  /** One fetched row whose enqueue succeeds or fails. */
  lemma PendingOne(x: System, k: nat, now: int, clock: int, todo: seq<Snapshot>, sweep: Sweep, ok: bool)
      returns (es: seq<Event>, y: System)
    requires k in x.calls && x.calls[k] == PendingNext(now, todo, sweep) && now <= clock
    requires todo != [] && todo[0].id in x.rows
    requires x.rows[todo[0].id].row.status == PENDING && x.rows[todo[0].id].row.attempts == todo[0].attempts
    ensures RunsOnly(x, es, y, k) && y.rows.Keys == x.rows.Keys && y.maxAttempts == x.maxAttempts
    ensures forall id :: id in x.rows && id != todo[0].id ==> y.rows[id] == x.rows[id]
    ensures var before, after := x.rows[todo[0].id].row, y.rows[todo[0].id].row;
            && (if ok then after == before else PushedBack(before, after, x.maxAttempts, clock))
            && k in y.calls
            && y.calls[k] == PendingNext(now, todo[1..],
                                         if ok then sweep.(enqueued := sweep.enqueued + 1)
                                         else if after.status == FAILED
                                         then sweep.(deadLettered := sweep.deadLettered + 1) else sweep)
    ensures y.jobs == if ok then Enqueued(x.jobs, todo[0].id) else x.jobs
  {
    var o := Oracle([], ok, ProofMissing, clock);
    assert RunsOnly(x, [], x, k);
    StepsOn(x, [], x, k, o);
    var x1 := Apply(x, Step(k, o));
    StepsOn(x, [] + [Step(k, o)], x1, k, o);
    es, y := [] + [Step(k, o)] + [Step(k, o)], Apply(x1, Step(k, o));
    if !ok {
      StepsOn(x, es, y, k, o);
      es, y := es + [Step(k, o)], Apply(y, Step(k, o));
    }
  }

  /** The rows of these snapshots are as they were when they were read. */
  ghost predicate Current(rows: map<PayoutId, Entry>, todo: seq<Snapshot>, status: PayoutStatus) {
    && (forall i, j :: 0 <= i < j < |todo| ==> todo[i].id != todo[j].id)
    && (forall i :: 0 <= i < |todo| ==>
          && todo[i].id in rows && rows[todo[i].id].row.status == status
          && rows[todo[i].id].row.attempts == todo[i].attempts)
  }

  ghost predicate Listed(todo: seq<Snapshot>, id: PayoutId) {
    exists i :: 0 <= i < |todo| && todo[i].id == id
  }

  lemma ListedFirst(todo: seq<Snapshot>, id: PayoutId)
    requires todo != []
    ensures Listed(todo, id) <==> id == todo[0].id || Listed(todo[1..], id)
  {
    if Listed(todo, id) && id != todo[0].id {
      var i :| 0 <= i < |todo| && todo[i].id == id;
      assert todo[1..][i - 1].id == id;
    }
    if Listed(todo[1..], id) {
      var i :| 0 <= i < |todo[1..]| && todo[1..][i].id == id;
      assert todo[i + 1].id == id;
    }
  }

  /** The whole pending loop: `up` says for which ids the enqueue succeeds. */
  lemma {:induction false} PendingAll(x: System, k: nat, now: int, clock: int, todo: seq<Snapshot>, sweep: Sweep,
                                      up: set<PayoutId>) returns (es: seq<Event>, y: System, after: Sweep)
    requires k in x.calls && x.calls[k] == PendingNext(now, todo, sweep) && now <= clock
    requires Current(x.rows, todo, PENDING)
    ensures RunsOnly(x, es, y, k) && y.rows.Keys == x.rows.Keys && y.maxAttempts == x.maxAttempts
    ensures k in y.calls && y.calls[k] == PendingNext(now, [], after) && after.reclaimed == sweep.reclaimed
    ensures forall id :: id in x.rows ==>
              if Listed(todo, id) && id !in up
              then PushedBack(x.rows[id].row, y.rows[id].row, x.maxAttempts, clock)
              else y.rows[id].row == x.rows[id].row
    ensures forall id :: id in y.jobs <==> id in x.jobs || (Listed(todo, id) && id in up)
    decreases |todo|
  {
    if todo == [] {
      es, y, after := [], x, sweep;
    } else {
      var id := todo[0].id;
      var x1: System;
      es, x1 := PendingOne(x, k, now, clock, todo, sweep, id in up);
      forall i | 0 <= i < |todo[1..]|
        ensures todo[1..][i].id != id && x1.rows[todo[1..][i].id] == x.rows[todo[1..][i].id]
      {
        assert todo[1..][i] == todo[i + 1];
      }
      var fs;
      fs, y, after := PendingAll(x1, k, now, clock, todo[1..], x1.calls[k].sweep, up);
      RunsJoin(x, es, x1, fs, y, k);
      es := es + fs;
      forall j
        ensures Listed(todo, j) <==> j == id || Listed(todo[1..], j)
      {
        ListedFirst(todo, j);
      }
      assert !Listed(todo[1..], id);
    }
  }

  // ---- the stale loop ----

  lemma StaleOne(x: System, k: nat, now: int, clock: int, todo: seq<Snapshot>, sweep: Sweep)
      returns (es: seq<Event>, y: System)
    requires k in x.calls && x.calls[k] == StaleNext(now, todo, sweep) && now <= clock
    requires todo != [] && todo[0].id in x.rows && x.rows[todo[0].id].row.attempts == todo[0].attempts
    ensures RunsOnly(x, es, y, k) && y.rows.Keys == x.rows.Keys && y.maxAttempts == x.maxAttempts && y.jobs == x.jobs
    ensures forall id :: id in x.rows && id != todo[0].id ==> y.rows[id] == x.rows[id]
    ensures var before, after := x.rows[todo[0].id].row, y.rows[todo[0].id].row;
            && TakenBack(before, after, x.maxAttempts, clock)
            && k in y.calls
            && y.calls[k] == StaleNext(now, todo[1..],
                                       if after.status == FAILED then sweep.(deadLettered := sweep.deadLettered + 1)
                                       else sweep.(reclaimed := sweep.reclaimed + 1))
  {
    var o := Oracle([], true, ProofMissing, clock);
    assert RunsOnly(x, [], x, k);
    StepsOn(x, [], x, k, o);
    es, y := [] + [Step(k, o)], Apply(x, Step(k, o));
  }

  lemma {:induction false} StaleAll(x: System, k: nat, now: int, clock: int, todo: seq<Snapshot>, sweep: Sweep)
      returns (es: seq<Event>, y: System, after: Sweep)
    requires k in x.calls && x.calls[k] == StaleNext(now, todo, sweep) && now <= clock
    requires Current(x.rows, todo, PROCESSING)
    ensures RunsOnly(x, es, y, k) && y.rows.Keys == x.rows.Keys && y.maxAttempts == x.maxAttempts && y.jobs == x.jobs
    ensures k in y.calls && y.calls[k] == StaleNext(now, [], after) && after.enqueued == sweep.enqueued
    ensures forall id :: id in x.rows ==>
              if Listed(todo, id) then TakenBack(x.rows[id].row, y.rows[id].row, x.maxAttempts, clock)
              else y.rows[id].row == x.rows[id].row
    decreases |todo|
  {
    if todo == [] {
      es, y, after := [], x, sweep;
    } else {
      var id := todo[0].id;
      var x1: System;
      es, x1 := StaleOne(x, k, now, clock, todo, sweep);
      forall i | 0 <= i < |todo[1..]|
        ensures todo[1..][i].id != id && x1.rows[todo[1..][i].id] == x.rows[todo[1..][i].id]
      {
        assert todo[1..][i] == todo[i + 1];
      }
      var fs;
      fs, y, after := StaleAll(x1, k, now, clock, todo[1..], x1.calls[k].sweep);
      RunsJoin(x, es, x1, fs, y, k);
      es := es + fs;
      forall j
        ensures Listed(todo, j) <==> j == id || Listed(todo[1..], j)
      {
        ListedFirst(todo, j);
      }
      assert !Listed(todo[1..], id);
    }
  }

  // ---- a whole drain, and a whole job ----

  ghost predicate Fetchable(rows: map<PayoutId, Entry>, ids: seq<PayoutId>, status: PayoutStatus) {
    Distinct(ids) && forall i :: 0 <= i < |ids| ==> ids[i] in rows && rows[ids[i]].row.status == status
  }

  lemma ReadsRows(x: System, k: nat, c: Call, ids: seq<PayoutId>, clock: int)
      returns (y: System, todo: seq<Snapshot>)
    requires k in x.calls && x.calls[k] == c && (c.DrainStart? || c.StaleStart?)
    requires Fetchable(x.rows, ids, if c.DrainStart? then PENDING else PROCESSING)
    requires OracleOk(x, c, Oracle(ids, true, ProofMissing, clock))
    ensures RunsOnly(x, [Step(k, Oracle(ids, true, ProofMissing, clock))], y, k)
    ensures y == x.(calls := y.calls) && k in y.calls
    ensures y.calls[k] == if c.DrainStart? then PendingNext(c.now, todo, Sweep(0, 0, 0))
                          else StaleNext(c.now, todo, c.sweep)
    ensures Current(y.rows, todo, if c.DrainStart? then PENDING else PROCESSING)
    ensures forall id :: Listed(todo, id) <==> id in ids
  {
    var o := Oracle(ids, true, ProofMissing, clock);
    assert RunsOnly(x, [], x, k);
    StepsOn(x, [], x, k, o);
    assert [] + [Step(k, o)] == [Step(k, o)];
    y, todo := Apply(x, Step(k, o)), Snapshots(x.rows, ids);
    forall id
      ensures Listed(todo, id) <==> id in ids
    {
      if id in ids {
        var i :| 0 <= i < |ids| && ids[i] == id;
        assert todo[i].id == id;
      }
    }
  }

  function Columns(x: System): map<PayoutId, Row> {
    map id | id in x.rows :: x.rows[id].row
  }

  ghost predicate MayFetch(x: System, fetched: seq<PayoutId>, now: int) {
    Fetchable(x.rows, fetched, PENDING) && forall id :: id in fetched ==> x.rows[id].row.nextAttemptAt <= now
  }

  ghost predicate MayReclaim(x: System, stale: seq<PayoutId>, now: int) {
    Fetchable(x.rows, stale, PROCESSING) && forall id :: id in stale ==> x.rows[id].row.createdAt + 300000 < now
  }

  lemma PendingPhase(x: System, k: nat, now: int, clock: int, fetched: seq<PayoutId>, up: set<PayoutId>)
      returns (es: seq<Event>, y: System, sweep: Sweep)
    requires k in x.calls && x.calls[k] == DrainStart(now) && now <= clock && MayFetch(x, fetched, now)
    ensures RunsOnly(x, es, y, k) && y.maxAttempts == x.maxAttempts
    ensures k in y.calls && y.calls[k] == StaleStart(now, sweep)
    ensures Drained(Columns(x), Columns(y), fetched, up, [], x.maxAttempts, clock)
    ensures forall id :: id in y.jobs <==> id in x.jobs || (id in fetched && id in up)
  {
    var x1, todo := ReadsRows(x, k, DrainStart(now), fetched, clock);
    var fs;
    fs, y, sweep := PendingAll(x1, k, now, clock, todo, Sweep(0, 0, 0), up);
    es := [Step(k, Oracle(fetched, true, ProofMissing, clock))];
    RunsJoin(x, es, x1, fs, y, k);
    es := es + fs;
    var o := Oracle([], true, ProofMissing, clock);
    StepsOn(x, es, y, k, o);
    es, y := es + [Step(k, o)], Apply(y, Step(k, o));
  }

  lemma StalePhase(x: System, k: nat, now: int, clock: int, sweep: Sweep, stale: seq<PayoutId>)
      returns (es: seq<Event>, y: System, after: Sweep)
    requires k in x.calls && x.calls[k] == StaleStart(now, sweep) && now <= clock && MayReclaim(x, stale, now)
    ensures RunsOnly(x, es, y, k) && y.jobs == x.jobs
    ensures k in y.calls && y.calls[k] == StaleNext(now, [], after)
    ensures Drained(Columns(x), Columns(y), [], {}, stale, x.maxAttempts, clock)
  {
    var x1, todo := ReadsRows(x, k, StaleStart(now, sweep), stale, clock);
    es := [Step(k, Oracle(stale, true, ProofMissing, clock))];
    var fs;
    fs, y, after := StaleAll(x1, k, now, clock, todo, sweep);
    RunsJoin(x, es, x1, fs, y, k);
    es := es + fs;
  }

  /** Stale rows are not in the pending loop, so they are still stale after it. */
  lemma StillReclaimable(x: System, y: System, fetched: seq<PayoutId>, up: set<PayoutId>, stale: seq<PayoutId>,
                         now: int, clock: int)
    requires MayFetch(x, fetched, now) && MayReclaim(x, stale, now)
    requires Drained(Columns(x), Columns(y), fetched, up, [], x.maxAttempts, clock)
    ensures MayReclaim(y, stale, now) && forall id :: id in stale ==> id !in fetched
  {
    forall id | id in stale
      ensures id !in fetched && id in y.rows && y.rows[id].row == x.rows[id].row
    {
      assert Columns(y)[id] == Columns(x)[id];
    }
  }

  /**
   * A drain of the interleaved outbox that runs alone, on any due rows it fetches, any enqueues that fail and any
   * stale rows, ends on the rows that the drain of the table ends on.
   */
  lemma DrainAlone(x: System, k: nat, now: int, clock: int, fetched: seq<PayoutId>, up: set<PayoutId>,
                   stale: seq<PayoutId>, after: map<PayoutId, Row>) returns (es: seq<Event>, y: System, sweep: Sweep)
    requires k in x.calls && x.calls[k] == DrainStart(now) && now <= clock
    requires MayFetch(x, fetched, now) && MayReclaim(x, stale, now)
    requires Drained(Columns(x), after, fetched, up, stale, x.maxAttempts, clock)
    ensures RunsOnly(x, es, y, k) && Columns(y) == after
    ensures k in y.calls && y.calls[k] == StaleNext(now, [], sweep)
    ensures forall id :: id in y.jobs <==> id in x.jobs || (id in fetched && id in up)
  {
    var x1, s1;
    es, x1, s1 := PendingPhase(x, k, now, clock, fetched, up);
    StillReclaimable(x, x1, fetched, up, stale, now, clock);
    var fs;
    fs, y, sweep := StalePhase(x1, k, now, clock, s1, stale);
    RunsJoin(x, es, x1, fs, y, k);
    es := es + fs;
    PayoutTable.BothLoops(Columns(x), Columns(x1), Columns(y), fetched, up, stale, x.maxAttempts, clock);
    PayoutTable.OneResult(Columns(x), Columns(y), after, fetched, up, stale, x.maxAttempts, clock);
  }

  /** A job that runs alone: what it makes of its row, by what it finds, and that it submits only an approved proof. */
  lemma JobAlone(x: System, k: nat, id: PayoutId, proof: ProofRead, paid: bool) returns (es: seq<Event>, y: System)
    requires k in x.calls && x.calls[k] == PayClaim(id)
    ensures RunsOnly(x, es, y, k) && k !in y.calls && y.rows.Keys == x.rows.Keys
    ensures forall i :: i in x.rows && i != id ==> y.rows[i] == x.rows[i]
    ensures id in x.rows ==>
              var e, e' := x.rows[id], y.rows[id];
              if e.row.status != PENDING then e' == e
              else
                && (proof == ProofMissing ==> e'.row == e.row.(status := PROCESSING))
                && (proof == ProofNotApproved ==> e'.row == e.row.(status := FAILED))
                && (proof == ProofApproved && paid ==> e'.row == e.row.(status := PAID))
                && (proof == ProofApproved && !paid ==>
                      e'.row == e.row.(status := FAILED, attempts := e.row.attempts + 1))
                && e'.past.submissions == e.past.submissions + (if proof == ProofApproved then 1 else 0)
  {
    var o := Oracle([], paid, proof, 0);
    assert RunsOnly(x, [], x, k);
    StepsOn(x, [], x, k, o);
    es, y := [] + [Step(k, o)], Apply(x, Step(k, o));
    if id in x.rows && x.rows[id].row.status == PENDING {
      StepsOn(x, es, y, k, o);
      es, y := es + [Step(k, o)], Apply(y, Step(k, o));
      if proof == ProofNotApproved {
        StepsOn(x, es, y, k, o);
        es, y := es + [Step(k, o)], Apply(y, Step(k, o));
      } else if proof == ProofApproved {
        es, y := PaysAlone(x, es, y, k, o, id);
      }
    }
  }

  /** The end of a job that has found its proof approved. */
  lemma PaysAlone(x: System, es: seq<Event>, y: System, k: nat, o: Oracle, id: PayoutId)
      returns (es': seq<Event>, z: System)
    requires RunsOnly(x, es, y, k) && k in y.calls && y.calls[k] == PaySubmit(id) && id in y.rows
    ensures RunsOnly(x, es', z, k) && k !in z.calls && z.rows.Keys == y.rows.Keys
    ensures forall i :: i in y.rows && i != id ==> z.rows[i] == y.rows[i]
    ensures var e, e' := y.rows[id], z.rows[id];
            && e'.row == (if o.ok then e.row.(status := PAID)
                          else e.row.(status := FAILED, attempts := e.row.attempts + 1))
            && e'.past == e.past.(submissions := e.past.submissions + 1)
  {
    StepsOn(x, es, y, k, o);
    es', z := es + [Step(k, o)], Apply(y, Step(k, o));
    StepsOn(x, es', z, k, o);
    es', z := es' + [Step(k, o)], Apply(z, Step(k, o));
  }

  // ---- what PAID says, whatever is in between ----

  /** Somewhere along the run a payment for this row was submitted and succeeded. */
  ghost predicate Succeeds(x: System, es: seq<Event>, id: PayoutId)
    decreases es
  {
    && es != [] && Enabled(x, es[0])
    && ((es[0].Step? && x.calls[es[0].k] == PaySubmit(id) && es[0].oracle.ok)
        || Succeeds(Apply(x, es[0]), es[1..], id))
  }

  ghost predicate Settling(x: System, id: PayoutId) {
    exists k :: k in x.calls && x.calls[k] == PaySettle(id)
  }

  ghost predicate SaysPaid(x: System, id: PayoutId) {
    Settling(x, id) || (id in x.rows && x.rows[id].row.status == PAID)
  }

  /** A step that makes a row PAID is the write of a payment that succeeded, and that comes of such a payment only. */
  lemma StepSaysPaid(x: System, e: Event, id: PayoutId)
    requires Enabled(x, e) && !SaysPaid(x, id)
    ensures SaysPaid(Apply(x, e), id) ==> e.Step? && x.calls[e.k] == PaySubmit(id) && e.oracle.ok
  {
    var y := Apply(x, e);
    if Settling(y, id) {
      var k :| k in y.calls && y.calls[k] == PaySettle(id);
      assert k in x.calls ==> x.calls[k] != PaySettle(id);
    }
  }

  lemma {:induction false} RunSaysPaid(x: System, es: seq<Event>, y: System, id: PayoutId)
    requires Runs(x, es, y) && !SaysPaid(x, id)
    ensures SaysPaid(y, id) ==> Succeeds(x, es, id)
    decreases es
  {
    if es != [] {
      StepSaysPaid(x, es[0], id);
      if !SaysPaid(Apply(x, es[0]), id) {
        RunSaysPaid(Apply(x, es[0]), es[1..], y, id);
      }
    }
  }

  /** In every run: a row is recorded as PAID only if a payment for it was submitted and succeeded. */
  lemma PaidOnlyAfterSuccess(maxAttempts: int, es: seq<Event>, y: System, id: PayoutId)
    requires Runs(Empty(maxAttempts), es, y) && id in y.rows && y.rows[id].row.status == PAID
    ensures Succeeds(Empty(maxAttempts), es, id)
  {
    RunSaysPaid(Empty(maxAttempts), es, y, id);
  }

  /** And one that fails is written as FAILED, with an attempt more, whatever the row says by then. */
  lemma FailureRecorded(x: System, k: nat, o: Oracle, es: seq<Event>, y: System, o': Oracle, id: PayoutId)
    requires k in x.calls && x.calls[k] == PaySubmit(id) && !o.ok && Enabled(x, Step(k, o))
    requires Runs(Apply(x, Step(k, o)), es, y) && Enabled(y, Step(k, o')) && id in y.rows
    requires forall i :: 0 <= i < |es| ==> !((es[i].Step? || es[i].Crash?) && es[i].k == k)
    ensures var z := Apply(y, Step(k, o'));
            id in z.rows && z.rows[id].row == y.rows[id].row.(status := FAILED, attempts := y.rows[id].row.attempts + 1)
  {
    JobWaits(Apply(x, Step(k, o)), es, y, k);
  }

  lemma {:induction false} JobWaits(x: System, es: seq<Event>, y: System, k: nat)
    requires k in x.calls && Runs(x, es, y)
    requires forall i :: 0 <= i < |es| ==> !((es[i].Step? || es[i].Crash?) && es[i].k == k)
    ensures k in y.calls && y.calls[k] == x.calls[k]
    decreases es
  {
    if es != [] {
      assert !((es[0].Step? || es[0].Crash?) && es[0].k == k);
      forall i | 0 <= i < |es[1..]|
        ensures es[1..][i] == es[i + 1]
      {}
      JobWaits(Apply(x, es[0]), es[1..], y, k);
    }
  }
}
