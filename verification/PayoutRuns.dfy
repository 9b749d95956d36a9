/**
 * Runs of the payout outbox that show its bounds to be exact and PAID to be lost. In all of them a job id is run
 * once for each time it is enqueued, and enqueued again only after retention has removed it.
 */
module PayoutRuns {
  import opened Common
  import opened PayoutOutbox

  lemma {:induction false} AloneSnoc(x: System, es: seq<Event>, y: System, e: Event)
    requires RunsAlone(x, es, y) && Enabled(y, e) && OneDrain(Apply(y, e).calls)
    ensures RunsAlone(x, es + [e], Apply(y, e))
    decreases es
  {
    if es == [] {
      assert RunsAlone(Apply(y, e), [], Apply(y, e));
      assert ([e])[1..] == [];
    } else {
      AloneSnoc(Apply(x, es[0]), es[1..], y, e);
      assert (es + [e])[1..] == es[1..] + [e];
    }
  }

  lemma {:induction false} RunsSnoc(x: System, es: seq<Event>, y: System, e: Event)
    requires Runs(x, es, y) && Enabled(y, e)
    ensures Runs(x, es + [e], Apply(y, e))
    decreases es
  {
    if es == [] {
      assert ([e])[1..] == [];
    } else {
      RunsSnoc(Apply(x, es[0]), es[1..], y, e);
      assert (es + [e])[1..] == es[1..] + [e];
    }
  }

  /** A run leads from `from` to `y`; with `alone`, one without overlapping drains. */
  ghost predicate Reached(alone: bool, from: System, y: System) {
    exists es :: if alone then RunsAlone(from, es, y) else Runs(from, es, y)
  }

  lemma Here(alone: bool, x: System)
    requires OneDrain(x.calls)
    ensures Reached(alone, x, x)
  {
    assert RunsAlone(x, [], x) && Runs(x, [], x);
  }

  lemma Extend(alone: bool, from: System, y: System, e: Event)
    requires Reached(alone, from, y) && Enabled(y, e)
    requires alone ==> OneDrain(Apply(y, e).calls)
    ensures Reached(alone, from, Apply(y, e))
  {
    var es :| if alone then RunsAlone(from, es, y) else Runs(from, es, y);
    if alone {
      AloneSnoc(from, es, y, e);
    } else {
      RunsSnoc(from, es, y, e);
    }
  }

  ghost predicate NoDrain(calls: map<nat, Call>) {
    forall k :: k in calls ==> !IsDrain(calls[k])
  }

  /** Whether call `c` may run beside the others when drains must not overlap. */
  ghost predicate Fits(alone: bool, others: map<nat, Call>, c: Call) {
    alone ==> if IsDrain(c) then NoDrain(others) else OneDrain(others)
  }

  lemma FitsMeans(alone: bool, others: map<nat, Call>, k: nat, c: Call)
    requires Fits(alone, others, c) && k !in others
    ensures alone ==> OneDrain(others[k := c]) && OneDrain(others)
  {}

  /** One payout row, created at time 0. */
  function One(m: int, row: Row, past: Past, jobs: map<PayoutId, Job>, calls: map<nat, Call>): System {
    System(m, map[0 := Entry(row, past)], jobs, calls)
  }

  const GONE: map<PayoutId, Job> := map[]
  const QUEUED: map<PayoutId, Job> := map[0 := Waiting]
  const TAKEN: map<PayoutId, Job> := map[0 := Active]
  const KEPT: map<PayoutId, Job> := map[0 := Finished]
  const NO_CALLS: map<nat, Call> := map[]

  /** The times of the runs below, each later than the one before; a row created at 0 is stale at all of them. */
  function Time(n: nat): int {
    (n + 1) * (STALE_PROCESSING_MS + 1)
  }

  lemma TimesGrow(n: nat)
    ensures STALE_PROCESSING_MS < Time(n) < Time(n + 1)
  {}

  function Rows(ids: seq<PayoutId>, now: int): Oracle {
    Oracle(ids, true, ProofApproved, now)
  }

  lemma OneUpdated(row: Row, past: Past, row': Row, past': Past)
    ensures (map[0 := Entry(row, past)])[0 := Entry(row', past')] == map[0 := Entry(row', past')]
  {}

  /** Call k, suspended at c, steps to c'. */
  lemma StepCall(alone: bool, from: System, m: int, row: Row, past: Past, jobs: map<PayoutId, Job>,
                 others: map<nat, Call>, k: nat, c: Call, o: Oracle,
                 row': Row, past': Past, jobs': map<PayoutId, Job>, c': Call)
    requires k !in others && Fits(alone, others, c')
    requires var x := One(m, row, past, jobs, others[k := c]);
             && Reached(alone, from, x) && OracleOk(x, c, o)
             && Advance(x, c, o) == (One(m, row', past', jobs', others[k := c]), Some(c'))
    ensures Reached(alone, from, One(m, row', past', jobs', others[k := c']))
  {
    var x := One(m, row, past, jobs, others[k := c]);
    FitsMeans(alone, others, k, c');
    assert x.calls[k := c'] == others[k := c'];
    assert Apply(x, Step(k, o)) == One(m, row', past', jobs', others[k := c']);
    Extend(alone, from, x, Step(k, o));
  }

  /** Drain k returns. */
  lemma Returns(alone: bool, from: System, m: int, row: Row, past: Past, jobs: map<PayoutId, Job>,
                others: map<nat, Call>, k: nat, now: int, sweep: Sweep)
    requires k !in others && Fits(alone, others, StaleNext(now, [], sweep))
    requires Reached(alone, from, One(m, row, past, jobs, others[k := StaleNext(now, [], sweep)]))
    ensures Reached(alone, from, One(m, row, past, jobs, others))
  {
    var x := One(m, row, past, jobs, others[k := StaleNext(now, [], sweep)]);
    FitsMeans(alone, others, k, StaleNext(now, [], sweep));
    assert x.calls - {k} == others;
    assert Apply(x, Step(k, Rows([], now))) == One(m, row, past, jobs, others);
    Extend(alone, from, x, Step(k, Rows([], now)));
  }

  /** A worker takes the job and claims the row. */
  lemma Claims(alone: bool, from: System, m: int, row: Row, past: Past, others: map<nat, Call>)
    requires 0 !in others && (alone ==> OneDrain(others)) && row.status.PENDING?
    requires Reached(alone, from, One(m, row, past, QUEUED, others))
    ensures Reached(alone, from, One(m, row.(status := PROCESSING), past.(claims := past.claims + 1), TAKEN,
                                     others[0 := PayLoad(0)]))
  {
    var x := One(m, row, past, QUEUED, others);
    var claimed := row.(status := PROCESSING);
    var past1 := past.(claims := past.claims + 1);
    FitsMeans(alone, others, 0, PayClaim(0));
    Extend(alone, from, x, BeginPay(0, 0));
    assert Apply(x, BeginPay(0, 0)) == One(m, row, past, TAKEN, others[0 := PayClaim(0)]);
    OneUpdated(row, past, claimed, past1);
    StepCall(alone, from, m, row, past, TAKEN, others, 0, PayClaim(0), Rows([], 0), claimed, past1, TAKEN, PayLoad(0));
  }

  /** It pays, and has yet to record that. */
  lemma Pays(alone: bool, from: System, m: int, row: Row, past: Past, others: map<nat, Call>)
    requires 0 !in others && (alone ==> OneDrain(others)) && row.status.PENDING?
    requires Reached(alone, from, One(m, row, past, QUEUED, others))
    ensures Reached(alone, from, One(m, row.(status := PROCESSING),
                                     Past(past.claims + 1, past.submissions + 1, past.reclaims), TAKEN,
                                     others[0 := PaySettle(0)]))
  {
    var claimed := row.(status := PROCESSING);
    var past1 := past.(claims := past.claims + 1);
    var past2 := past1.(submissions := past.submissions + 1);
    Claims(alone, from, m, row, past, others);
    StepCall(alone, from, m, claimed, past1, TAKEN, others, 0, PayLoad(0), Rows([], 0), claimed, past1, TAKEN,
        PaySubmit(0));
    OneUpdated(claimed, past1, claimed, past2);
    StepCall(alone, from, m, claimed, past1, TAKEN, others, 0, PaySubmit(0), Rows([], 0), claimed, past2, TAKEN,
             PaySettle(0));
  }

  /** It dies there; the queue gives its job to another worker. */
  lemma Dies(alone: bool, from: System, m: int, row: Row, past: Past, others: map<nat, Call>)
    requires 0 !in others && (alone ==> OneDrain(others))
    requires Reached(alone, from, One(m, row, past, TAKEN, others[0 := PaySettle(0)]))
    ensures Reached(alone, from, One(m, row, past, QUEUED, others))
  {
    var x := One(m, row, past, TAKEN, others[0 := PaySettle(0)]);
    assert x.calls - {0} == others;
    Extend(alone, from, x, Crash(0));
    var x1 := One(m, row, past, TAKEN, others);
    assert Apply(x, Crash(0)) == x1;
    Extend(alone, from, x1, Stalled(0, true));
    assert Apply(x1, Stalled(0, true)) == One(m, row, past, QUEUED, others);
  }

  /** That one finds the row claimed and skips it, and retention removes the completed job in the end. */
  lemma Skips(alone: bool, from: System, m: int, row: Row, past: Past, others: map<nat, Call>)
    requires 0 !in others && (alone ==> OneDrain(others)) && row.status.PROCESSING?
    requires Reached(alone, from, One(m, row, past, QUEUED, others))
    ensures Reached(alone, from, One(m, row, past, GONE, others))
  {
    var x := One(m, row, past, QUEUED, others);
    FitsMeans(alone, others, 0, PayClaim(0));
    Extend(alone, from, x, BeginPay(0, 0));
    var x1 := One(m, row, past, TAKEN, others[0 := PayClaim(0)]);
    assert Apply(x, BeginPay(0, 0)) == x1;
    assert x1.calls - {0} == others;
    assert Apply(x1, Step(0, Rows([], 0))) == One(m, row, past, KEPT, others);
    Extend(alone, from, x1, Step(0, Rows([], 0)));
    Forgets(alone, from, m, row, past, others);
  }

  lemma Forgets(alone: bool, from: System, m: int, row: Row, past: Past, others: map<nat, Call>)
    requires alone ==> OneDrain(others)
    requires Reached(alone, from, One(m, row, past, KEPT, others))
    ensures Reached(alone, from, One(m, row, past, GONE, others))
  {
    var x := One(m, row, past, KEPT, others);
    assert KEPT - {0} == GONE;
    assert Apply(x, ForgetJob(0)) == One(m, row, past, GONE, others);
    Extend(alone, from, x, ForgetJob(0));
  }

  /** The worker records the payment and its job is done. */
  lemma Settles(alone: bool, from: System, m: int, row: Row, past: Past, others: map<nat, Call>)
    requires 0 !in others && (alone ==> OneDrain(others))
    requires Reached(alone, from, One(m, row, past, TAKEN, others[0 := PaySettle(0)]))
    ensures Reached(alone, from, One(m, row.(status := PAID), past, KEPT, others))
  {
    var x := One(m, row, past, TAKEN, others[0 := PaySettle(0)]);
    assert x.calls - {0} == others;
    assert Apply(x, Step(0, Rows([], 0))) == One(m, row.(status := PAID), past, KEPT, others);
    Extend(alone, from, x, Step(0, Rows([], 0)));
  }

  const NO_SWEEP := Sweep(0, 0, 0)

  /** What a drain that started at `now` and has read `read` attempts of the stale row is left with. */
  function ReadAs(now: int, read: nat): Call {
    StaleNext(now, [Snapshot(0, read)], NO_SWEEP)
  }

  /** Drain k starts, finds nothing due and reads the row as stale. */
  lemma ReadsStale(alone: bool, from: System, m: int, row: Row, past: Past, jobs: map<PayoutId, Job>,
                   others: map<nat, Call>, k: nat, now: int)
    requires k !in others && Fits(alone, others, DrainStart(now)) && row.status.PROCESSING?
    requires row.createdAt == 0 && STALE_PROCESSING_MS < now
    requires Reached(alone, from, One(m, row, past, jobs, others))
    ensures Reached(alone, from, One(m, row, past, jobs, others[k := ReadAs(now, row.attempts)]))
  {
    var x := One(m, row, past, jobs, others);
    FitsMeans(alone, others, k, DrainStart(now));
    Extend(alone, from, x, BeginDrain(k, now));
    assert Snapshots(x.rows, []) == [];
    StepCall(alone, from, m, row, past, jobs, others, k, DrainStart(now), Rows([], now), row, past, jobs,
             PendingNext(now, [], NO_SWEEP));
    StepCall(alone, from, m, row, past, jobs, others, k, PendingNext(now, [], NO_SWEEP), Rows([], now), row, past, jobs,
             StaleStart(now, NO_SWEEP));
    assert Snapshots(x.rows, [0]) == [Snapshot(0, row.attempts)];
    StepCall(alone, from, m, row, past, jobs, others, k, StaleStart(now, NO_SWEEP), Rows([0], now), row, past, jobs,
             ReadAs(now, row.attempts));
  }

  /** What a reclaim with this snapshot writes at this time. */
  function Reset(row: Row, read: nat, clock: int): Row {
    row.(status := PENDING, attempts := read + 1, nextAttemptAt := clock)
  }

  /** That drain reclaims the row, whatever became of it since, and returns. */
  lemma Reclaims(alone: bool, from: System, m: int, row: Row, past: Past, jobs: map<PayoutId, Job>,
                 others: map<nat, Call>, k: nat, read: nat, now: int, clock: int)
    requires k !in others && Fits(alone, others, DrainStart(now)) && read < m && now <= clock
    requires Reached(alone, from, One(m, row, past, jobs, others[k := ReadAs(now, read)]))
    ensures Reached(alone, from, One(m, Reset(row, read, clock), past.(reclaims := past.reclaims + 1), jobs, others))
  {
    var row1, past1 := Reset(row, read, clock), past.(reclaims := past.reclaims + 1);
    assert [Snapshot(0, read)][1..] == [];
    OneUpdated(row, past, row1, past1);
    StepCall(alone, from, m, row, past, jobs, others, k, ReadAs(now, read), Rows([], clock), row1, past1, jobs,
             StaleNext(now, [], Sweep(0, 1, 0)));
    Returns(alone, from, m, row1, past1, jobs, others, k, now, Sweep(0, 1, 0));
  }

  /** Drain k reads the row as due. */
  lemma ReadsDue(alone: bool, from: System, m: int, row: Row, past: Past, others: map<nat, Call>, k: nat, now: int)
    requires k !in others && Fits(alone, others, DrainStart(now)) && row.status.PENDING? && row.nextAttemptAt <= now
    requires Reached(alone, from, One(m, row, past, GONE, others))
    ensures Reached(alone, from, One(m, row, past, GONE,
                                     others[k := PendingNext(now, [Snapshot(0, row.attempts)], NO_SWEEP)]))
  {
    var x := One(m, row, past, GONE, others);
    FitsMeans(alone, others, k, DrainStart(now));
    Extend(alone, from, x, BeginDrain(k, now));
    assert Snapshots(x.rows, [0]) == [Snapshot(0, row.attempts)];
    StepCall(alone, from, m, row, past, GONE, others, k, DrainStart(now), Rows([0], now), row, past, GONE,
             PendingNext(now, [Snapshot(0, row.attempts)], NO_SWEEP));
  }

  /** Drain k enqueues the row, whose job id is free again, and returns. */
  lemma Enqueues(alone: bool, from: System, m: int, row: Row, past: Past, others: map<nat, Call>, k: nat, now: int)
    requires k !in others && Fits(alone, others, DrainStart(now)) && row.status.PENDING? && row.nextAttemptAt <= now
    requires Reached(alone, from, One(m, row, past, GONE, others))
    ensures Reached(alone, from, One(m, row, past, QUEUED, others))
  {
    var todo := [Snapshot(0, row.attempts)];
    var one := Sweep(1, 0, 0);
    ReadsDue(alone, from, m, row, past, others, k, now);
    StepCall(alone, from, m, row, past, GONE, others, k, PendingNext(now, todo, NO_SWEEP), Rows([], now),
             row, past, GONE, PendingEnqueue(now, todo, NO_SWEEP));
    assert todo[1..] == [] && Enqueued(GONE, 0) == QUEUED;
    StepCall(alone, from, m, row, past, GONE, others, k, PendingEnqueue(now, todo, NO_SWEEP), Rows([], now),
             row, past, QUEUED, PendingNext(now, [], one));
    StepCall(alone, from, m, row, past, QUEUED, others, k, PendingNext(now, [], one), Rows([], now), row, past, QUEUED,
             StaleStart(now, one));
    assert Snapshots(One(m, row, past, QUEUED, others).rows, []) == [];
    StepCall(alone, from, m, row, past, QUEUED, others, k, StaleStart(now, one), Rows([], now), row, past, QUEUED,
             StaleNext(now, [], one));
    Returns(alone, from, m, row, past, QUEUED, others, k, now, one);
  }

  /** One round: a drain enqueues the row, a worker pays and dies, its job is completed by another and forgotten. */
  lemma Round(alone: bool, from: System, m: int, row: Row, past: Past, others: map<nat, Call>, k: nat, now: int)
    requires k !in others && 0 !in others && k != 0 && Fits(alone, others, DrainStart(now))
    requires row.status.PENDING? && row.nextAttemptAt <= now
    requires Reached(alone, from, One(m, row, past, GONE, others))
    ensures Reached(alone, from, One(m, row.(status := PROCESSING),
                                     Past(past.claims + 1, past.submissions + 1, past.reclaims), GONE, others))
  {
    var row1, past1 := row.(status := PROCESSING), Past(past.claims + 1, past.submissions + 1, past.reclaims);
    FitsMeans(alone, others, k, DrainStart(now));
    Enqueues(alone, from, m, row, past, others, k, now);
    Pays(alone, from, m, row, past, others);
    Dies(alone, from, m, row1, past1, others);
    Skips(alone, from, m, row1, past1, others);
  }

  const START := Row(PENDING, 0, 0, 0)

  /** The row as it stands after `k` reclaims, the last at Time(2 * k), in a given status. */
  function After(k: nat, status: PayoutStatus): Row {
    Row(status, k, if k == 0 then 0 else Time(2 * k), 0)
  }

  lemma Approved(m: int)
    ensures Reached(true, Empty(m), One(m, START, Past(0, 0, 0), GONE, NO_CALLS))
  {
    Here(true, Empty(m));
    Extend(true, Empty(m), Empty(m), Approve(0, 0));
    assert Apply(Empty(m), Approve(0, 0)) == One(m, START, Past(0, 0, 0), GONE, NO_CALLS);
  }

  /** k reclaims by drains that never overlap, each of a worker that paid and died: k + 1 payments. */
  lemma {:induction false} PaidAgainAndAgain(m: nat, k: nat)
    requires k <= m
    ensures Reached(true, Empty(m), One(m, After(k, PROCESSING), Past(k + 1, k + 1, k), GONE, NO_CALLS))
  {
    TimesGrow(2 * k);
    if k == 0 {
      Approved(m);
      Round(true, Empty(m), m, START, Past(0, 0, 0), NO_CALLS, 1, Time(1));
    } else {
      var f, t := Empty(m), Time(2 * k);
      PaidAgainAndAgain(m, k - 1);
      ReadsStale(true, f, m, After(k - 1, PROCESSING), Past(k, k, k - 1), GONE, NO_CALLS, 1, t);
      Reclaims(true, f, m, After(k - 1, PROCESSING), Past(k, k, k - 1), GONE, NO_CALLS, 1, k - 1, t, t);
      Round(true, f, m, After(k, PENDING), Past(k, k, k), NO_CALLS, 1, Time(2 * k + 1));
    }
  }

  /** The bound for drains that do not overlap is attained: the unique proof id does not make payment at-most-once. */
  lemma BoundAttained(m: nat)
    ensures exists es, y :: RunsAlone(Empty(m), es, y) && 0 in y.rows && y.rows[0].past.submissions == 1 + m
  {
    PaidAgainAndAgain(m, m);
    var y := One(m, After(m, PROCESSING), Past(m + 1, m + 1, m), GONE, NO_CALLS);
    var es :| RunsAlone(Empty(m), es, y);
  }

  /** Two drains that started at one time have read the same attempt count of the same stale row. */
  lemma TwoReadStale(m: nat, a: nat, now: int)
    requires a < m && STALE_PROCESSING_MS < now
    ensures Reached(false, Empty(m), One(m, After(a, PROCESSING), Past(a + 1, a + 1, a), GONE,
                                         NO_CALLS[1 := ReadAs(now, a)][2 := ReadAs(now, a)]))
  {
    var past := Past(a + 1, a + 1, a);
    var x := One(m, After(a, PROCESSING), past, GONE, NO_CALLS);
    PaidAgainAndAgain(m, a);
    var es :| RunsAlone(Empty(m), es, x);
    AloneRunsAreRuns(Empty(m), es, x);
    assert Reached(false, Empty(m), x);
    ReadsStale(false, Empty(m), m, After(a, PROCESSING), past, GONE, NO_CALLS, 1, now);
    ReadsStale(false, Empty(m), m, After(a, PROCESSING), past, GONE, NO_CALLS[1 := ReadAs(now, a)], 2, now);
  }

  /** With two overlapping drains it fails: both act on the same attempt count, and one more payment goes out. */
  lemma OverlapExceedsBound(m: nat)
    requires m > 0
    ensures exists es, y :: Runs(Empty(m), es, y) && 0 in y.rows
                            && y.rows[0].past.submissions == 2 + m && y.rows[0].past.reclaims > y.rows[0].row.attempts
  {
    var a, f, t := m - 1, Empty(m), Time(2 * m);
    TimesGrow(2 * m);
    TimesGrow(2 * m + 1);
    TimesGrow(2 * m + 2);
    var late := NO_CALLS[1 := ReadAs(t, a)];
    var again := Row(PROCESSING, m, Time(2 * m + 2), 0);
    TwoReadStale(m, a, t);
    Reclaims(false, f, m, After(a, PROCESSING), Past(m, m, a), GONE, late, 2, a, t, t);
    Round(false, f, m, After(m, PENDING), Past(m, m, m), late, 2, Time(2 * m + 1));
    Reclaims(false, f, m, After(m, PROCESSING), Past(m + 1, m + 1, m), GONE, NO_CALLS, 1, a, t, Time(2 * m + 2));
    Round(false, f, m, again.(status := PENDING), Past(m + 1, m + 1, m + 1), NO_CALLS, 1, Time(2 * m + 3));
    var y := One(m, again, Past(m + 2, m + 2, m + 1), GONE, NO_CALLS);
    var es :| Runs(f, es, y);
  }

  lemma {:induction false} AloneRunsAreRuns(x: System, es: seq<Event>, y: System)
    requires RunsAlone(x, es, y)
    ensures Runs(x, es, y)
    decreases es
  {
    if es != [] {
      AloneRunsAreRuns(Apply(x, es[0]), es[1..], y);
    }
  }

  /** A worker has paid and is about to record it when the only drain reads its row as stale; then it records PAID. */
  lemma RecordedPaid(m: int)
    ensures Reached(true, Empty(m), One(m, After(0, PAID), Past(1, 1, 0), KEPT, NO_CALLS[1 := ReadAs(Time(2), 0)]))
  {
    var f, past := Empty(m), Past(1, 1, 0);
    TimesGrow(2);
    Approved(m);
    Enqueues(true, f, m, START, Past(0, 0, 0), NO_CALLS, 1, Time(1));
    Pays(true, f, m, START, Past(0, 0, 0), NO_CALLS);
    var worker := NO_CALLS[0 := PaySettle(0)];
    ReadsStale(true, f, m, After(0, PROCESSING), past, TAKEN, worker, 1, Time(2));
    var drain := NO_CALLS[1 := ReadAs(Time(2), 0)];
    assert worker[1 := ReadAs(Time(2), 0)] == drain[0 := PaySettle(0)];
    Settles(true, f, m, After(0, PROCESSING), past, drain);
  }

  /** With a single drain: a payout recorded as PAID is made PENDING again and paid a second time. */
  lemma PaidIsPaidAgain(m: nat)
    requires m > 0
    ensures exists es, x, es', y ::
              && RunsAlone(Empty(m), es, x) && 0 in x.rows && x.rows[0].row.status.PAID?
              && x.rows[0].past.submissions == 1
              && RunsAlone(x, es', y) && 0 in y.rows && y.rows[0].past.submissions == 2
  {
    RecordedPaid(m);
    TimesGrow(2);
    var drain := NO_CALLS[1 := ReadAs(Time(2), 0)];
    var x := One(m, After(0, PAID), Past(1, 1, 0), KEPT, drain);
    var es :| RunsAlone(Empty(m), es, x);
    Here(true, x);
    Reclaims(true, x, m, After(0, PAID), Past(1, 1, 0), KEPT, NO_CALLS, 1, 0, Time(2), Time(2));
    Forgets(true, x, m, After(1, PENDING), Past(1, 1, 1), NO_CALLS);
    Round(true, x, m, After(1, PENDING), Past(1, 1, 1), NO_CALLS, 1, Time(3));
    var y := One(m, After(1, PROCESSING), Past(2, 2, 1), GONE, NO_CALLS);
    var es' :| RunsAlone(x, es', y);
  }
}
