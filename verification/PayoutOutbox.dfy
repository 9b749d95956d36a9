/**
 * The reward-payout outbox: sweeper drains and payment workers racing on payout rows.
 * Every database statement, enqueue and payment call is one step; calls may overlap and die anywhere.
 */
module PayoutOutbox {
  import opened Common
  import opened Backoff

  type PayoutId = nat
  datatype PayoutStatus = PENDING | PROCESSING | PAID | FAILED
  datatype Row = Row(status: PayoutStatus, attempts: nat, nextAttemptAt: int, createdAt: int)

  /** What happened to a row so far; not stored with it. */
  datatype Past = Past(claims: nat, submissions: nat, reclaims: nat)
  datatype Entry = Entry(row: Row, past: Past)

  /** The columns of a fetched row that a drain uses later, as they were when it was read. */
  datatype Snapshot = Snapshot(id: PayoutId, attempts: nat)

  const STALE_PROCESSING_MS := 300000

  datatype Sweep = Sweep(enqueued: nat, reclaimed: nat, deadLettered: nat)

  datatype Call =
    // the reward worker's job
    | PayClaim(id: PayoutId)
    | PayLoad(id: PayoutId)
    | PaySubmit(id: PayoutId)
    | PaySettle(id: PayoutId)
    | PayRefuse(id: PayoutId)
    | PayFail(id: PayoutId)
    // drainRewardPayouts
    | DrainStart(now: int)
    | PendingNext(now: int, todo: seq<Snapshot>, sweep: Sweep)
    | PendingEnqueue(now: int, todo: seq<Snapshot>, sweep: Sweep)
    | PendingFailed(now: int, todo: seq<Snapshot>, sweep: Sweep)
    | StaleStart(now: int, sweep: Sweep)
    | StaleNext(now: int, todo: seq<Snapshot>, sweep: Sweep)

  datatype ProofRead = ProofMissing | ProofNotApproved | ProofApproved

  /** Outcomes the protocol does not decide: rows returned, external success, the proof read, the clock. */
  datatype Oracle = Oracle(ids: seq<PayoutId>, ok: bool, proof: ProofRead, clock: int)

  /** A queue job, by its id: it is run once, and keeps its id taken until retention removes it. */
  datatype Job = Waiting | Active | Finished

  datatype System = System(
    maxAttempts: int,
    rows: map<PayoutId, Entry>,
    jobs: map<PayoutId, Job>,
    calls: map<nat, Call>)

  predicate IsDrain(c: Call) {
    c.DrainStart? || c.PendingNext? || c.PendingEnqueue? || c.PendingFailed? || c.StaleStart? || c.StaleNext?
  }

  function Snapshots(rows: map<PayoutId, Entry>, ids: seq<PayoutId>): seq<Snapshot>
    requires forall i :: 0 <= i < |ids| ==> ids[i] in rows
  {
    seq(|ids|, i requires 0 <= i < |ids| => Snapshot(ids[i], rows[ids[i]].row.attempts))
  }

  predicate Due(e: Entry, now: int) {
    e.row.status.PENDING? && e.row.nextAttemptAt <= now
  }

  predicate Stale(e: Entry, now: int) {
    e.row.status.PROCESSING? && e.row.createdAt < now - STALE_PROCESSING_MS
  }

  /** Rows come back as the query selects them, and the clock has not gone back since the drain started. */
  ghost predicate OracleOk(x: System, c: Call, o: Oracle) {
    match c
    case DrainStart(now) =>
      Distinct(o.ids) && forall i :: 0 <= i < |o.ids| ==> o.ids[i] in x.rows && Due(x.rows[o.ids[i]], now)
    case StaleStart(now, _) =>
      Distinct(o.ids) && forall i :: 0 <= i < |o.ids| ==> o.ids[i] in x.rows && Stale(x.rows[o.ids[i]], now)
    case PendingFailed(now, _, _) => now <= o.clock
    case StaleNext(now, _, _) => now <= o.clock
    case _ => true
  }

  /** `queue.add` with a job id: nothing happens if the id is taken, whatever became of the job. */
  function Enqueued(jobs: map<PayoutId, Job>, id: PayoutId): map<PayoutId, Job> {
    if id in jobs then jobs else jobs[id := Waiting]
  }

  function SetJob(jobs: map<PayoutId, Job>, id: PayoutId, job: Job): map<PayoutId, Job> {
    if id in jobs then jobs[id := job] else jobs
  }

  function SetRow(rows: map<PayoutId, Entry>, id: PayoutId, row: Row): map<PayoutId, Entry> {
    if id in rows then rows[id := rows[id].(row := row)] else rows
  }

  /** PENDING to PROCESSING: the only step that gives a worker ownership. */
  function ClaimRow(e: Entry): Entry {
    e.(row := e.row.(status := PROCESSING), past := e.past.(claims := e.past.claims + 1))
  }

  function ReclaimRow(e: Entry, snapshot: Snapshot, clock: int): Entry {
    e.(row := e.row.(status := PENDING, attempts := snapshot.attempts + 1, nextAttemptAt := clock),
       past := e.past.(reclaims := e.past.reclaims + 1))
  }

  /** The failed-enqueue write: unguarded, with the attempt count of the snapshot. */
  function EnqueueFailedRow(r: Row, snapshot: Snapshot, maxAttempts: int, clock: int): Row {
    var attempts := snapshot.attempts + 1;
    if attempts >= maxAttempts then r.(status := FAILED, attempts := attempts)
    else r.(attempts := attempts, nextAttemptAt := clock + NextBackoffMs(attempts))
  }

  /** One step of a call. A write to a row that is not there throws. */
  function Advance(x: System, c: Call, o: Oracle): (System, Option<Call>)
    requires c.DrainStart? || c.StaleStart? ==> forall i :: 0 <= i < |o.ids| ==> o.ids[i] in x.rows
  {
    match c
    case PayClaim(id) =>
      if id in x.rows && x.rows[id].row.status.PENDING? then
        (x.(rows := x.rows[id := ClaimRow(x.rows[id])]), Some(PayLoad(id)))
      else (x, None)
    case PayLoad(id) =>
      (x, match o.proof
          case ProofMissing => None
          case ProofNotApproved => Some(PayRefuse(id))
          case ProofApproved => Some(PaySubmit(id)))
    case PaySubmit(id) =>
      var rows := if id in x.rows then
                    x.rows[id := x.rows[id].(past := x.rows[id].past.(submissions := x.rows[id].past.submissions + 1))]
                  else x.rows;
      (x.(rows := rows), Some(if o.ok then PaySettle(id) else PayFail(id)))
    case PaySettle(id) =>
      (if id in x.rows then x.(rows := SetRow(x.rows, id, x.rows[id].row.(status := PAID))) else x, None)
    case PayRefuse(id) =>
      (if id in x.rows then x.(rows := SetRow(x.rows, id, x.rows[id].row.(status := FAILED))) else x, None)
    case PayFail(id) =>
      (if id in x.rows then
         x.(rows := SetRow(x.rows, id, x.rows[id].row.(status := FAILED, attempts := x.rows[id].row.attempts + 1)))
       else x, None)
    case DrainStart(now) =>
      (x, Some(PendingNext(now, Snapshots(x.rows, o.ids), Sweep(0, 0, 0))))
    case PendingNext(now, todo, sweep) =>
      if todo == [] then (x, Some(StaleStart(now, sweep)))
      else if todo[0].id in x.rows && x.rows[todo[0].id].row.status.PENDING?
          then (x, Some(PendingEnqueue(now, todo, sweep)))
      else (x, Some(PendingNext(now, todo[1..], sweep)))
    case PendingEnqueue(now, todo, sweep) =>
      if todo == [] then (x, None)
      else if o.ok then
        (x.(jobs := Enqueued(x.jobs, todo[0].id)),
            Some(PendingNext(now, todo[1..], sweep.(enqueued := sweep.enqueued + 1))))
      else (x, Some(PendingFailed(now, todo, sweep)))
    case PendingFailed(now, todo, sweep) =>
      if todo == [] || todo[0].id !in x.rows then (x, None)
      else
        var id := todo[0].id;
        var dead := todo[0].attempts + 1 >= x.maxAttempts;
        (x.(rows := SetRow(x.rows, id, EnqueueFailedRow(x.rows[id].row, todo[0], x.maxAttempts, o.clock))),
         Some(PendingNext(now, todo[1..], if dead then sweep.(deadLettered := sweep.deadLettered + 1) else sweep)))
    case StaleStart(now, sweep) =>
      (x, Some(StaleNext(now, Snapshots(x.rows, o.ids), sweep)))
    case StaleNext(now, todo, sweep) =>
      if todo == [] || todo[0].id !in x.rows then (x, None)
      else
        var id := todo[0].id;
        if todo[0].attempts >= x.maxAttempts then
          (x.(rows := SetRow(x.rows, id, x.rows[id].row.(status := FAILED))),
           Some(StaleNext(now, todo[1..], sweep.(deadLettered := sweep.deadLettered + 1))))
        else
          (x.(rows := x.rows[id := ReclaimRow(x.rows[id], todo[0], o.clock)]),
           Some(StaleNext(now, todo[1..], sweep.(reclaimed := sweep.reclaimed + 1))))
  }

  /**
   * `Stalled`: the queue notices that a job's worker is gone and returns it to waiting, or gives it up.
   * `ForgetJob`: retention removes a finished job.
   */
  datatype Event =
    | Approve(id: PayoutId, now: int)
    | BeginPay(k: nat, id: PayoutId)
    | BeginDrain(k: nat, now: int)
    | Step(k: nat, oracle: Oracle)
    | Crash(k: nat)
    | Stalled(id: PayoutId, again: bool)
    | ForgetJob(id: PayoutId)

  ghost predicate Enabled(x: System, e: Event) {
    match e
    case Approve(id, _) => id !in x.rows
    case BeginPay(k, id) => k !in x.calls && id in x.jobs && x.jobs[id].Waiting?
    case BeginDrain(k, _) => k !in x.calls
    case Step(k, o) => k in x.calls && OracleOk(x, x.calls[k], o)
    case Crash(k) => k in x.calls
    case Stalled(id, _) => id in x.jobs && x.jobs[id].Active?
    case ForgetJob(id) => id in x.jobs && x.jobs[id].Finished?
  }

  ghost function Apply(x: System, e: Event): System
    requires Enabled(x, e)
  {
    match e
    case Approve(id, now) => x.(rows := x.rows[id := Entry(Row(PENDING, 0, now, now), Past(0, 0, 0))])
    case BeginPay(k, id) => x.(calls := x.calls[k := PayClaim(id)], jobs := x.jobs[id := Active])
    case BeginDrain(k, now) => x.(calls := x.calls[k := DrainStart(now)])
    case Step(k, o) =>
      var c := x.calls[k];
      var (y, next) := Advance(x, c, o);
      if next.Some? then y.(calls := x.calls[k := next.value])
      else y.(calls := x.calls - {k}, jobs := if IsDrain(c) then y.jobs else SetJob(y.jobs, c.id, Finished))
    case Crash(k) => x.(calls := x.calls - {k})
    case Stalled(id, again) => x.(jobs := x.jobs[id := if again then Waiting else Finished])
    case ForgetJob(id) => x.(jobs := x.jobs - {id})
  }

  ghost predicate Runs(x: System, es: seq<Event>, y: System)
    decreases es
  {
    if es == [] then y == x
    else Enabled(x, es[0]) && Runs(Apply(x, es[0]), es[1..], y)
  }

  function Empty(maxAttempts: int): System {
    System(maxAttempts, map[], map[], map[])
  }

  // ---- submissions <= claims <= 1 + reclaims, whatever overlaps ----

  /** Worker calls that hold a claim on a row but have not called the payment service yet. */
  ghost function Unspent(calls: map<nat, Call>, id: PayoutId): set<nat> {
    set k | k in calls && (calls[k] == PayLoad(id) || calls[k] == PaySubmit(id))
  }

  ghost predicate EntryOk(e: Entry, unspent: nat) {
    && e.past.submissions + unspent <= e.past.claims
    && e.past.claims + (if e.row.status.PENDING? then 1 else 0) <= 1 + e.past.reclaims
  }

  ghost predicate Inv(x: System) {
    && (forall id :: id in x.rows ==> EntryOk(x.rows[id], |Unspent(x.calls, id)|))
    && (forall k :: k in x.calls && (x.calls[k].PayLoad? || x.calls[k].PaySubmit?) ==> x.calls[k].id in x.rows)
  }

  ghost predicate IsUnspent(c: Call, id: PayoutId) {
    c == PayLoad(id) || c == PaySubmit(id)
  }

  lemma SwapMember(u: set<nat>, k: nat, member: bool)
    ensures |if member then u + {k} else u - {k}| == |u| + (if member then 1 else 0) - (if k in u then 1 else 0)
  {
    if k in u { assert u == (u - {k}) + {k}; assert u + {k} == u; } else { assert u - {k} == u; }
  }

  lemma UnspentUpdate(calls: map<nat, Call>, k: nat, c: Call, id: PayoutId)
    ensures |Unspent(calls[k := c], id)|
            == |Unspent(calls, id)| + (if IsUnspent(c, id) then 1 else 0)
               - (if k in calls && IsUnspent(calls[k], id) then 1 else 0)
  {
    var u := Unspent(calls, id);
    SwapMember(u, k, IsUnspent(c, id));
    assert Unspent(calls[k := c], id) == if IsUnspent(c, id) then u + {k} else u - {k};
  }

  lemma UnspentRemove(calls: map<nat, Call>, k: nat, id: PayoutId)
    requires k in calls
    ensures |Unspent(calls - {k}, id)| == |Unspent(calls, id)| - (if IsUnspent(calls[k], id) then 1 else 0)
  {
    assert Unspent(calls - {k}, id) == Unspent(calls, id) - {k};
  }

  /** How one call's step moves the numbers of one row. */
  lemma StepEntry(x: System, k: nat, o: Oracle, id: PayoutId)
    requires k in x.calls && OracleOk(x, x.calls[k], o) && id in x.rows
    ensures var (y, next) := Advance(x, x.calls[k], o); var c := x.calls[k];
            && id in y.rows
            && var e, e' := x.rows[id], y.rows[id];
            && e'.past.submissions == e.past.submissions + (if c == PaySubmit(id) then 1 else 0)
            && e'.past.claims == e.past.claims + (if c == PayClaim(id) && e.row.status.PENDING? then 1 else 0)
            && (next.Some? && IsUnspent(next.value, id) ==>
                  (c == PayClaim(id) && e.row.status.PENDING?) || c == PayLoad(id))
            && (c == PayClaim(id) ==> !e'.row.status.PENDING?)
            && e.past.reclaims <= e'.past.reclaims
            && (e'.row.status.PENDING? && !e.row.status.PENDING? ==> e'.past.reclaims == e.past.reclaims + 1)
  {}

  lemma StepKeepsInv(x: System, e: Event)
    requires Inv(x) && Enabled(x, e)
    ensures Inv(Apply(x, e))
  {
    var y := Apply(x, e);
    forall id | id in y.rows
      ensures EntryOk(y.rows[id], |Unspent(y.calls, id)|)
    {
      match e
      case Approve(i, _) =>
        if i == id { assert Unspent(x.calls, id) == {}; }
      case BeginPay(k, i) => UnspentUpdate(x.calls, k, PayClaim(i), id);
      case BeginDrain(k, now) => UnspentUpdate(x.calls, k, DrainStart(now), id);
      case Crash(k) => UnspentRemove(x.calls, k, id);
      case Stalled(_, _) =>
      case ForgetJob(_) =>
      case Step(k, o) =>
        AdvanceAddsNoRow(x, x.calls[k], o);
        StepEntry(x, k, o, id);
        var next := Advance(x, x.calls[k], o).1;
        if next.Some? { UnspentUpdate(x.calls, k, next.value, id); } else { UnspentRemove(x.calls, k, id); }
    }
    if e.Step? {
      AdvanceAddsNoRow(x, x.calls[e.k], e.oracle);
    }
  }

  lemma AdvanceAddsNoRow(x: System, c: Call, o: Oracle)
    requires OracleOk(x, c, o)
    ensures Advance(x, c, o).0.rows.Keys == x.rows.Keys
    ensures Advance(x, c, o).0.maxAttempts == x.maxAttempts
    ensures var next := Advance(x, c, o).1;
            next.Some? && (next.value.PayLoad? || next.value.PaySubmit?) ==>
              (c.PayClaim? || c.PayLoad?) && next.value.id == c.id && (c.PayClaim? ==> c.id in x.rows)
  {}

  lemma {:induction false} RunKeepsInv(x: System, es: seq<Event>, y: System)
    requires Inv(x) && Runs(x, es, y)
    ensures Inv(y)
    decreases es
  {
    if es != [] {
      StepKeepsInv(x, es[0]);
      RunKeepsInv(Apply(x, es[0]), es[1..], y);
    }
  }

  /** Payments submitted <= successful claims <= 1 + stale reclaims, in every interleaving. */
  lemma SubmissionsBounded(maxAttempts: int, es: seq<Event>, y: System, id: PayoutId)
    requires Runs(Empty(maxAttempts), es, y) && id in y.rows
    ensures y.rows[id].past.submissions <= y.rows[id].past.claims <= 1 + y.rows[id].past.reclaims
  {
    RunKeepsInv(Empty(maxAttempts), es, y);
  }

  // ---- reclaims <= attempts, and what breaks it ----

  /** A drain's write that sets the attempt count, to one more than the drain had read. */
  predicate SetsAttempts(x: System, c: Call) {
    && (c.PendingFailed? || (c.StaleNext? && c.todo != [] && c.todo[0].attempts < x.maxAttempts))
    && c.todo != [] && c.todo[0].id in x.rows
  }

  /** The row's attempt count has moved past the one the drain had read. */
  predicate LosesAttempt(x: System, c: Call) {
    SetsAttempts(x, c) && c.todo[0].attempts < x.rows[c.todo[0].id].row.attempts
  }

  /** Such a write does not raise the attempt count exactly if the count has moved past the one that was read. */
  lemma LosesAttemptIff(x: System, k: nat, o: Oracle)
    requires k in x.calls && OracleOk(x, x.calls[k], o) && SetsAttempts(x, x.calls[k])
    ensures var y, id := Advance(x, x.calls[k], o).0, x.calls[k].todo[0].id;
            && id in y.rows
            && (y.rows[id].row.attempts <= x.rows[id].row.attempts <==> LosesAttempt(x, x.calls[k]))
  {}

  /** A write that leaves fewer attempts than reclaims: more than one reclaim has passed the drain's snapshot by. */
  predicate Undercounts(x: System, c: Call) {
    && SetsAttempts(x, c)
    && c.todo[0].attempts + (if c.PendingFailed? then 1 else 0) < x.rows[c.todo[0].id].past.reclaims
  }

  ghost predicate Covered(rows: map<PayoutId, Entry>) {
    forall id :: id in rows ==> rows[id].past.reclaims <= rows[id].row.attempts
  }

  ghost predicate Bad(x: System, e: Event, lost: bool) {
    e.Step? && e.k in x.calls && (if lost then LosesAttempt(x, x.calls[e.k]) else Undercounts(x, x.calls[e.k]))
  }

  lemma WorkerKeepsCovered(x: System, k: nat, o: Oracle)
    requires Covered(x.rows) && k in x.calls && OracleOk(x, x.calls[k], o) && !SetsAttempts(x, x.calls[k])
    ensures Covered(Advance(x, x.calls[k], o).0.rows)
  {}

  lemma WriteCoversIff(x: System, k: nat, o: Oracle)
    requires Covered(x.rows) && k in x.calls && OracleOk(x, x.calls[k], o) && SetsAttempts(x, x.calls[k])
    ensures Covered(Advance(x, x.calls[k], o).0.rows) <==> !Undercounts(x, x.calls[k])
  {
    var c := x.calls[k];
    var y := Advance(x, c, o).0;
    var id := c.todo[0].id;
    assert y.rows.Keys == x.rows.Keys && forall i :: i in x.rows && i != id ==> y.rows[i] == x.rows[i];
    assert id in y.rows;
  }

  lemma StepCoversIff(x: System, e: Event)
    requires Covered(x.rows) && Enabled(x, e)
    ensures Covered(Apply(x, e).rows) <==> !Bad(x, e, false)
  {
    if e.Step? {
      if SetsAttempts(x, x.calls[e.k]) {
        WriteCoversIff(x, e.k, e.oracle);
      } else {
        WorkerKeepsCovered(x, e.k, e.oracle);
      }
    }
  }

  /** The run, with reclaims covered by attempts in every state. */
  ghost predicate AlwaysCovered(x: System, es: seq<Event>)
    decreases es
  {
    Covered(x.rows) && (es != [] ==> Enabled(x, es[0]) && AlwaysCovered(Apply(x, es[0]), es[1..]))
  }

  /** No step of the run is bad: with `lost`, none loses an attempt; without, none undercounts. */
  ghost predicate NoneBad(x: System, es: seq<Event>, lost: bool)
    decreases es
  {
    es != [] ==> Enabled(x, es[0]) && !Bad(x, es[0], lost) && NoneBad(Apply(x, es[0]), es[1..], lost)
  }

  /** Over whole runs, also with overlapping drains: reclaims stay covered if and only if no write undercounts. */
  lemma {:induction false} CoveredIff(x: System, es: seq<Event>, y: System)
    requires Runs(x, es, y) && Covered(x.rows)
    ensures AlwaysCovered(x, es) <==> NoneBad(x, es, false)
    decreases es
  {
    if es != [] {
      StepCoversIff(x, es[0]);
      if Covered(Apply(x, es[0]).rows) {
        CoveredIff(Apply(x, es[0]), es[1..], y);
      }
    }
  }

  /** Reclaims are covered, and end when the attempts are used up. */
  ghost predicate RowsAlone(rows: map<PayoutId, Entry>, maxAttempts: int) {
    forall id :: id in rows ==>
      && rows[id].past.reclaims <= rows[id].row.attempts
      && (rows[id].past.reclaims == 0 || rows[id].past.reclaims <= maxAttempts)
  }

  lemma StepBounds(x: System, e: Event)
    requires RowsAlone(x.rows, x.maxAttempts) && Enabled(x, e) && !Bad(x, e, false)
    ensures RowsAlone(Apply(x, e).rows, x.maxAttempts) && Apply(x, e).maxAttempts == x.maxAttempts
  {
    StepCoversIff(x, e);
    if e.Step? {
      ReclaimsBounded(x, e.k, e.oracle);
      AdvanceAddsNoRow(x, x.calls[e.k], e.oracle);
    }
  }

  /** Only a reclaim that is not undercounted happens below the maximum. */
  lemma ReclaimsBounded(x: System, k: nat, o: Oracle)
    requires RowsAlone(x.rows, x.maxAttempts) && k in x.calls && OracleOk(x, x.calls[k], o)
    requires !Undercounts(x, x.calls[k])
    ensures forall id :: id in Advance(x, x.calls[k], o).0.rows ==>
              var e := Advance(x, x.calls[k], o).0.rows[id]; e.past.reclaims == 0 || e.past.reclaims <= x.maxAttempts
  {}

  lemma {:induction false} RunBounds(x: System, es: seq<Event>, y: System)
    requires Runs(x, es, y) && NoneBad(x, es, false) && RowsAlone(x.rows, x.maxAttempts)
    ensures RowsAlone(y.rows, x.maxAttempts)
    decreases es
  {
    if es != [] {
      StepBounds(x, es[0]);
      RunBounds(Apply(x, es[0]), es[1..], y);
    }
  }

  /** Payments are bounded in every run in which no write undercounts, however many drains overlap. */
  lemma SubmissionsBoundedUnless(maxAttempts: nat, es: seq<Event>, y: System, id: PayoutId)
    requires Runs(Empty(maxAttempts), es, y) && NoneBad(Empty(maxAttempts), es, false) && id in y.rows
    ensures y.rows[id].past.reclaims <= y.rows[id].row.attempts
    ensures y.rows[id].past.submissions <= 1 + maxAttempts
  {
    RunBounds(Empty(maxAttempts), es, y);
    SubmissionsBounded(maxAttempts, es, y, id);
  }

  lemma {:induction false} CurrentCounts(x: System, es: seq<Event>, y: System)
    requires Runs(x, es, y) && NoneBad(x, es, true) && Covered(x.rows)
    ensures NoneBad(x, es, false)
    decreases es
  {
    if es != [] {
      StepCoversIff(x, es[0]);
      CurrentCounts(Apply(x, es[0]), es[1..], y);
    }
  }

  /**
   * The same by a guard that a drain could check before its write: in every run in which no drain's write finds an
   * attempt count that has moved past the one it had read, at most 1 + maxAttempts payments are submitted.
   */
  lemma SubmissionsBoundedCurrent(maxAttempts: nat, es: seq<Event>, y: System, id: PayoutId)
    requires Runs(Empty(maxAttempts), es, y) && NoneBad(Empty(maxAttempts), es, true) && id in y.rows
    ensures y.rows[id].past.submissions <= 1 + maxAttempts
  {
    CurrentCounts(Empty(maxAttempts), es, y);
    SubmissionsBoundedUnless(maxAttempts, es, y, id);
  }

  // ---- one drain at a time ----

  ghost predicate OneDrain(calls: map<nat, Call>) {
    forall j, k :: j in calls && k in calls && IsDrain(calls[j]) && IsDrain(calls[k]) ==> j == k
  }

  /** The run never has two drains in flight. */
  ghost predicate RunsAlone(x: System, es: seq<Event>, y: System)
    decreases es
  {
    && OneDrain(x.calls)
    && if es == [] then y == x
       else Enabled(x, es[0]) && RunsAlone(Apply(x, es[0]), es[1..], y)
  }

  /** What the snapshots of the drain in flight may still be relied on for. */
  ghost predicate SnapshotsOk(rows: map<PayoutId, Entry>, todo: seq<Snapshot>) {
    && (forall i, j :: 0 <= i < j < |todo| ==> todo[i].id != todo[j].id)
    && (forall i :: 0 <= i < |todo| ==> todo[i].id in rows && rows[todo[i].id].past.reclaims <= todo[i].attempts)
  }

  ghost predicate CallOk(rows: map<PayoutId, Entry>, c: Call) {
    c.PendingNext? || c.PendingEnqueue? || c.PendingFailed? || c.StaleNext? ==> SnapshotsOk(rows, c.todo)
  }

  ghost predicate AloneInv(x: System) {
    && RowsAlone(x.rows, x.maxAttempts)
    && (forall k :: k in x.calls ==> CallOk(x.rows, x.calls[k]))
  }

  /** A worker's step reclaims nothing, so it leaves what a drain has read good enough to go by. */
  lemma PayAlone(x: System, k: nat, o: Oracle)
    requires AloneInv(x) && k in x.calls && OracleOk(x, x.calls[k], o) && !IsDrain(x.calls[k])
    ensures var (y, next) := Advance(x, x.calls[k], o);
            && RowsAlone(y.rows, y.maxAttempts)
            && (next.Some? ==> !IsDrain(next.value))
            && y.rows.Keys == x.rows.Keys
            && forall id :: id in x.rows ==> y.rows[id].past.reclaims == x.rows[id].past.reclaims
  {}

  lemma PendingAlone(x: System, k: nat, o: Oracle)
    requires AloneInv(x) && k in x.calls && OracleOk(x, x.calls[k], o)
    requires x.calls[k].DrainStart? || x.calls[k].PendingNext? || x.calls[k].PendingEnqueue?
        || x.calls[k].PendingFailed?
    ensures var (y, next) := Advance(x, x.calls[k], o);
            RowsAlone(y.rows, y.maxAttempts) && (next.Some? ==> CallOk(y.rows, next.value))
  {
    assert CallOk(x.rows, x.calls[k]);
  }

  lemma StaleAlone(x: System, k: nat, o: Oracle)
    requires AloneInv(x) && k in x.calls && OracleOk(x, x.calls[k], o)
    requires x.calls[k].StaleStart? || x.calls[k].StaleNext?
    ensures var (y, next) := Advance(x, x.calls[k], o);
            RowsAlone(y.rows, y.maxAttempts) && (next.Some? ==> CallOk(y.rows, next.value))
  {
    assert CallOk(x.rows, x.calls[k]);
  }

  lemma AdvanceAlone(x: System, k: nat, o: Oracle)
    requires AloneInv(x) && k in x.calls && OracleOk(x, x.calls[k], o)
    ensures var (y, next) := Advance(x, x.calls[k], o);
            && RowsAlone(y.rows, y.maxAttempts)
            && (next.Some? ==> CallOk(y.rows, next.value))
            && (!IsDrain(x.calls[k]) ==>
                  && y.rows.Keys == x.rows.Keys
                  && forall id :: id in x.rows ==> y.rows[id].past.reclaims == x.rows[id].past.reclaims)
  {
    var c := x.calls[k];
    if !IsDrain(c) {
      PayAlone(x, k, o);
    } else if c.StaleStart? || c.StaleNext? {
      StaleAlone(x, k, o);
    } else {
      PendingAlone(x, k, o);
    }
  }

  lemma AloneStep(x: System, e: Event)
    requires AloneInv(x) && OneDrain(x.calls) && Enabled(x, e)
    ensures AloneInv(Apply(x, e))
  {
    var y := Apply(x, e);
    if e.Step? {
      AdvanceAlone(x, e.k, e.oracle);
      forall j | j in y.calls
        ensures CallOk(y.rows, y.calls[j])
      {
        if j != e.k {
          assert y.calls[j] == x.calls[j] && CallOk(x.rows, x.calls[j]);
          if IsDrain(x.calls[j]) {
            assert !IsDrain(x.calls[e.k]);
          }
        }
      }
    } else {
      forall j | j in y.calls
        ensures CallOk(y.rows, y.calls[j])
      {
        if j in x.calls && y.calls[j] == x.calls[j] {
          assert CallOk(x.rows, x.calls[j]);
        }
      }
    }
  }

  lemma {:induction false} AloneCounts(x: System, es: seq<Event>, y: System)
    requires AloneInv(x) && RunsAlone(x, es, y)
    ensures Runs(x, es, y) && NoneBad(x, es, false)
    decreases es
  {
    if es != [] {
      if es[0].Step? { assert CallOk(x.rows, x.calls[es[0].k]); }
      AloneStep(x, es[0]);
      AloneCounts(Apply(x, es[0]), es[1..], y);
    }
  }

  /**
   * When drains do not overlap, no write undercounts: a row is reclaimed at most `attempts` times and never beyond
   * the maximum, so at most 1 + maxAttempts payments are submitted for it, wherever workers and drains die.
   */
  lemma SubmissionsBoundedAlone(maxAttempts: nat, es: seq<Event>, y: System, id: PayoutId)
    requires RunsAlone(Empty(maxAttempts), es, y) && id in y.rows
    ensures y.rows[id].past.reclaims <= y.rows[id].row.attempts
    ensures y.rows[id].past.submissions <= 1 + maxAttempts
  {
    AloneCounts(Empty(maxAttempts), es, y);
    SubmissionsBoundedUnless(maxAttempts, es, y, id);
  }
}
