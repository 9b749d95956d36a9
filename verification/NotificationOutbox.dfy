/**
 * The notification outbox: drains that race for PENDING rows. Each database statement and each enqueue
 * is one step, any of which may fail, and a drain may die anywhere.
 */
module NotificationOutbox {
  import opened Common
  import opened Backoff

  type OutboxId = nat
  datatype Status = PENDING | PROCESSING | SENT | DEAD_LETTER

  /** `enqueues` counts the enqueue calls made for the row; it is not a column. */
  datatype Row = Row(status: Status, attempts: nat, nextAttemptAt: int, enqueues: nat)

  datatype Snapshot = Snapshot(id: OutboxId, attempts: nat)
  datatype DrainResult = DrainResult(claimed: nat, sent: nat, retried: nat, deadLettered: nat)

  /** Where a drain is suspended; from `Enqueue` on it has claimed the first row of `todo`. */
  datatype Call =
    | Start(now: int)
    | Next(now: int, todo: seq<Snapshot>, result: DrainResult)
    | Enqueue(now: int, todo: seq<Snapshot>, result: DrainResult)
    | MarkSent(now: int, todo: seq<Snapshot>, result: DrainResult)
    | MarkFailed(now: int, todo: seq<Snapshot>, result: DrainResult)

  datatype Oracle = Oracle(ids: seq<OutboxId>, ok: bool, clock: int)

  /** `dead` are drains that died where they stood; `returned` are the results of those that returned. */
  datatype System = System(
    maxAttempts: int,
    rows: map<OutboxId, Row>,
    calls: map<nat, Call>,
    dead: set<nat>,
    returned: seq<DrainResult>)

  datatype Event =
    | Create(id: OutboxId, now: int)
    | Begin(k: nat, now: int)
    | Step(k: nat, oracle: Oracle)
    | Crash(k: nat)

  predicate Due(r: Row, now: int) {
    r.status.PENDING? && r.nextAttemptAt <= now
  }

  function Snapshots(rows: map<OutboxId, Row>, ids: seq<OutboxId>): seq<Snapshot>
    requires forall i :: 0 <= i < |ids| ==> ids[i] in rows
  {
    seq(|ids|, i requires 0 <= i < |ids| => Snapshot(ids[i], rows[ids[i]].attempts))
  }

  ghost predicate Enabled(x: System, e: Event) {
    match e
    case Create(id, _) => id !in x.rows
    case Begin(k, _) => k !in x.calls && k !in x.dead
    case Step(k, o) =>
      && k in x.calls && k !in x.dead
      && x.calls[k].now <= o.clock
      && (x.calls[k].Start? ==>
            Distinct(o.ids) && forall i :: 0 <= i < |o.ids| ==>
                o.ids[i] in x.rows && Due(x.rows[o.ids[i]], x.calls[k].now))
    case Crash(k) => k in x.calls && k !in x.dead
  }

  datatype Move = Goto(call: Call) | Return(result: DrainResult) | Throw

  /** The failure branch, with the attempt count of the snapshot. */
  function FailedRow(r: Row, snapshot: Snapshot, maxAttempts: int, clock: int): Row {
    var attempts := snapshot.attempts + 1;
    if attempts >= maxAttempts then r.(status := DEAD_LETTER, attempts := attempts)
    else r.(status := PENDING, attempts := attempts, nextAttemptAt := clock + NextBackoffMs(attempts))
  }

  function Advance(maxAttempts: int, rows: map<OutboxId, Row>, c: Call, o: Oracle): (map<OutboxId, Row>, Move)
    requires c.Start? ==> forall i :: 0 <= i < |o.ids| ==> o.ids[i] in rows
  {
    match c
    case Start(now) => (rows, Goto(Next(now, Snapshots(rows, o.ids), DrainResult(0, 0, 0, 0))))
    case Next(now, todo, r) =>
      if todo == [] then (rows, Return(r))
      else if todo[0].id in rows && rows[todo[0].id].status.PENDING? then
        (rows[todo[0].id := rows[todo[0].id].(status := PROCESSING)],
         Goto(Enqueue(now, todo, r.(claimed := r.claimed + 1))))
      else (rows, Goto(Next(now, todo[1..], r)))
    case Enqueue(now, todo, r) =>
      if todo == [] || todo[0].id !in rows then (rows, Throw)
      else
        var row := rows[todo[0].id];
        (rows[todo[0].id := row.(enqueues := row.enqueues + 1)],
         Goto(if o.ok then MarkSent(now, todo, r) else MarkFailed(now, todo, r)))
    case MarkSent(now, todo, r) =>
      if todo == [] || todo[0].id !in rows || !o.ok then (rows, Goto(MarkFailed(now, todo, r)))
      else
        (rows[todo[0].id := rows[todo[0].id].(status := SENT, attempts := todo[0].attempts + 1)],
         Goto(Next(now, todo[1..], r.(sent := r.sent + 1))))
    case MarkFailed(now, todo, r) =>
      if todo == [] || todo[0].id !in rows || !o.ok then (rows, Throw)
      else
        (rows[todo[0].id := FailedRow(rows[todo[0].id], todo[0], maxAttempts, o.clock)],
         Goto(Next(now, todo[1..], if todo[0].attempts + 1 >= maxAttempts then r.(deadLettered := r.deadLettered + 1)
                                   else r.(retried := r.retried + 1))))
  }

  ghost function Apply(x: System, e: Event): System
    requires Enabled(x, e)
  {
    match e
    case Create(id, now) => x.(rows := x.rows[id := Row(PENDING, 0, now, 0)])
    case Begin(k, now) => x.(calls := x.calls[k := Start(now)])
    case Crash(k) => x.(dead := x.dead + {k})
    case Step(k, o) =>
      var (rows, move) := Advance(x.maxAttempts, x.rows, x.calls[k], o);
      match move
      case Goto(c) => x.(rows := rows, calls := x.calls[k := c])
      case Return(r) => x.(rows := rows, calls := x.calls - {k}, returned := x.returned + [r])
      case Throw => x.(rows := rows, dead := x.dead + {k})
  }

  ghost predicate Runs(x: System, es: seq<Event>, y: System)
    decreases es
  {
    if es == [] then y == x
    else Enabled(x, es[0]) && Runs(Apply(x, es[0]), es[1..], y)
  }

  function Empty(maxAttempts: int): System {
    System(maxAttempts, map[], map[], {}, [])
  }

  // ---- ownership ----

  predicate Owns(c: Call, id: OutboxId) {
    (c.Enqueue? || c.MarkSent? || c.MarkFailed?) && c.todo != [] && c.todo[0].id == id
  }

  ghost predicate Owned(calls: map<nat, Call>, id: OutboxId) {
    exists k :: k in calls && Owns(calls[k], id)
  }

  ghost predicate OneOwner(calls: map<nat, Call>, id: OutboxId) {
    forall j, k :: j in calls && k in calls && Owns(calls[j], id) && Owns(calls[k], id) ==> j == k
  }

  predicate Balanced(r: DrainResult) {
    r.claimed == r.sent + r.retried + r.deadLettered
  }

  ghost predicate CallOk(rows: map<OutboxId, Row>, c: Call) {
    match c
    case Start(_) => true
    case Next(_, todo, r) => Balanced(r) && InRows(rows, todo)
    case _ =>
      && c.result.claimed == c.result.sent + c.result.retried + c.result.deadLettered + 1
      && c.todo != [] && InRows(rows, c.todo)
  }

  ghost predicate InRows(rows: map<OutboxId, Row>, todo: seq<Snapshot>) {
    forall i :: 0 <= i < |todo| ==> todo[i].id in rows
  }

  ghost predicate Inv(x: System) {
    && (forall id :: id in x.rows ==> OneOwner(x.calls, id) && (x.rows[id].status.PROCESSING? <==> Owned(x.calls, id)))
    && (forall k :: k in x.calls ==> CallOk(x.rows, x.calls[k]))
    && (forall i :: 0 <= i < |x.returned| ==> Balanced(x.returned[i]))
    && x.dead <= x.calls.Keys
  }

  /** A step of drain k on one row: how its ownership and the row's status move together. */
  lemma StepRow(x: System, k: nat, o: Oracle, id: OutboxId)
    requires Enabled(x, Step(k, o)) && id in x.rows && CallOk(x.rows, x.calls[k])
    requires Owns(x.calls[k], id) ==> x.rows[id].status.PROCESSING?
    ensures var (rows, move) := Advance(x.maxAttempts, x.rows, x.calls[k], o); var c := x.calls[k];
            && rows.Keys == x.rows.Keys
            && (var owned := Owns(c, id); var owns := move.Goto? && Owns(move.call, id);
                && (!owned && !owns ==> rows[id] == x.rows[id])
                && (owned && !owns && !move.Throw? ==> !rows[id].status.PROCESSING?)
                && (!owned && owns ==> x.rows[id].status.PENDING? && rows[id].status.PROCESSING?)
                && (owns || (owned && move.Throw?) ==> rows[id].status.PROCESSING?))
  {}

  lemma OwnershipMoves(calls: map<nat, Call>, k: nat, c: Call, id: OutboxId)
    requires k in calls && OneOwner(calls, id)
    requires Owns(c, id) ==> Owns(calls[k], id) || !Owned(calls, id)
    ensures OneOwner(calls[k := c], id)
    ensures Owned(calls[k := c], id) <==> Owns(c, id) || (Owned(calls, id) && !Owns(calls[k], id))
  {
    var after := calls[k := c];
    if Owns(c, id) { assert k in after && Owns(after[k], id); }
    if Owned(calls, id) && !Owns(calls[k], id) {
      var j :| j in calls && Owns(calls[j], id);
      assert j in after && Owns(after[j], id);
    }
    forall i, j | i in after && j in after && Owns(after[i], id) && Owns(after[j], id)
      ensures i == j
    {
      if i != k { assert Owned(calls, id); }
      if j != k { assert Owned(calls, id); }
    }
  }

  lemma OwnershipLeaves(calls: map<nat, Call>, k: nat, id: OutboxId)
    requires k in calls && OneOwner(calls, id) && !Owns(calls[k], id)
    ensures OneOwner(calls - {k}, id)
    ensures Owned(calls - {k}, id) <==> Owned(calls, id)
  {
    if Owned(calls, id) {
      var j :| j in calls && Owns(calls[j], id);
      assert j in calls - {k} && Owns((calls - {k})[j], id);
    }
  }

  lemma OwnershipJoins(calls: map<nat, Call>, k: nat, c: Call, id: OutboxId)
    requires k !in calls && !Owns(c, id)
    ensures OneOwner(calls[k := c], id) <==> OneOwner(calls, id)
    ensures Owned(calls[k := c], id) <==> Owned(calls, id)
  {
    var after := calls[k := c];
    if Owned(calls, id) {
      var j :| j in calls && Owns(calls[j], id);
      assert j in after && Owns(after[j], id);
    }
    if OneOwner(after, id) {
      forall i, j | i in calls && j in calls && Owns(calls[i], id) && Owns(calls[j], id)
        ensures i == j
      {
        assert i in after && j in after && Owns(after[i], id) && Owns(after[j], id);
      }
    }
  }

  lemma StepKeepsRowInv(x: System, k: nat, o: Oracle, id: OutboxId)
    requires Inv(x) && Enabled(x, Step(k, o)) && id in x.rows
    ensures var y := Apply(x, Step(k, o));
            && id in y.rows && OneOwner(y.calls, id)
            && (y.rows[id].status.PROCESSING? <==> Owned(y.calls, id))
  {
    assert CallOk(x.rows, x.calls[k]);
    if Owns(x.calls[k], id) { assert Owned(x.calls, id); }
    StepRow(x, k, o, id);
    var move := Advance(x.maxAttempts, x.rows, x.calls[k], o).1;
    match move
    case Goto(c) => OwnershipMoves(x.calls, k, c, id);
    case Return(_) => OwnershipLeaves(x.calls, k, id);
    case Throw =>
  }

  lemma StepKeepsCalls(x: System, k: nat, o: Oracle)
    requires Inv(x) && Enabled(x, Step(k, o))
    ensures var y := Apply(x, Step(k, o));
            && y.rows.Keys == x.rows.Keys
            && (forall j :: j in y.calls ==> CallOk(y.rows, y.calls[j]))
            && (forall i :: 0 <= i < |y.returned| ==> Balanced(y.returned[i]))
            && y.dead <= y.calls.Keys
  {
    assert CallOk(x.rows, x.calls[k]);
    var (rows, move) := Advance(x.maxAttempts, x.rows, x.calls[k], o);
    StepCallOk(x.maxAttempts, x.rows, x.calls[k], o);
    forall j | j in x.calls
      ensures CallOk(rows, x.calls[j])
    {
    }
  }

  lemma StepCallOk(m: int, rows: map<OutboxId, Row>, c: Call, o: Oracle)
    requires CallOk(rows, c)
    requires c.Start? ==> forall i :: 0 <= i < |o.ids| ==> o.ids[i] in rows
    ensures var (rows', move) := Advance(m, rows, c, o);
            && rows'.Keys == rows.Keys
            && (move.Goto? ==> CallOk(rows', move.call))
            && (move.Return? ==> Balanced(move.result))
  {}

  lemma EventKeepsInv(x: System, e: Event)
    requires Inv(x) && Enabled(x, e)
    ensures Inv(Apply(x, e))
  {
    var y := Apply(x, e);
    match e
    case Create(id, _) =>
      forall k | k in x.calls
        ensures !Owns(x.calls[k], id)
      {
        assert CallOk(x.rows, x.calls[k]);
      }
    case Begin(k, now) =>
      forall id | id in y.rows
        ensures OneOwner(y.calls, id) && (y.rows[id].status.PROCESSING? <==> Owned(y.calls, id))
      {
        OwnershipJoins(x.calls, k, Start(now), id);
      }
    case Crash(_) =>
    case Step(k, o) =>
      StepKeepsCalls(x, k, o);
      forall id | id in y.rows
        ensures OneOwner(y.calls, id) && (y.rows[id].status.PROCESSING? <==> Owned(y.calls, id))
      {
        StepKeepsRowInv(x, k, o, id);
      }
  }

  lemma {:induction false} RunKeepsInv(x: System, es: seq<Event>, y: System)
    requires Inv(x) && Runs(x, es, y)
    ensures Inv(y)
    decreases es
  {
    if es != [] {
      EventKeepsInv(x, es[0]);
      RunKeepsInv(Apply(x, es[0]), es[1..], y);
    }
  }

  /** A row is PROCESSING exactly when a drain, live or dead, owns it, and never has two owners. */
  lemma ExactlyOneOwner(m: int, es: seq<Event>, y: System, id: OutboxId)
    requires Runs(Empty(m), es, y) && id in y.rows
    ensures y.rows[id].status.PROCESSING? <==> exists k :: k in y.calls && Owns(y.calls[k], id)
    ensures forall j, k :: j in y.calls && k in y.calls && Owns(y.calls[j], id) && Owns(y.calls[k], id) ==> j == k
  {
    RunKeepsInv(Empty(m), es, y);
    assert OneOwner(y.calls, id);
    if Owned(y.calls, id) {}
  }

  lemma {:induction false} FinalFrom(x: System, es: seq<Event>, y: System, id: OutboxId)
    requires Inv(x) && Runs(x, es, y)
    requires id in x.rows && (x.rows[id].status.SENT? || x.rows[id].status.DEAD_LETTER?)
    ensures id in y.rows && y.rows[id] == x.rows[id]
    decreases es
  {
    if es != [] {
      var e := es[0];
      EventKeepsInv(x, e);
      if e.Step? {
        assert !Owned(x.calls, id);
        assert CallOk(x.rows, x.calls[e.k]);
        StepRow(x, e.k, e.oracle, id);
      }
      FinalFrom(Apply(x, e), es[1..], y, id);
    }
  }

  /** SENT and DEAD_LETTER are final: a row that has reached either never changes again, whatever drains overlap. */
  lemma FinalForever(m: int, before: seq<Event>, x: System, after: seq<Event>, y: System, id: OutboxId)
    requires Runs(Empty(m), before, x) && Runs(x, after, y)
    requires id in x.rows && (x.rows[id].status.SENT? || x.rows[id].status.DEAD_LETTER?)
    ensures id in y.rows && y.rows[id] == x.rows[id]
  {
    RunKeepsInv(Empty(m), before, x);
    FinalFrom(x, after, y, id);
  }

  /** Every drain that returns accounts for each row it claimed. */
  lemma ReturnsBalanced(m: int, es: seq<Event>, y: System)
    requires Runs(Empty(m), es, y)
    ensures forall i :: 0 <= i < |y.returned| ==>
              y.returned[i].claimed == y.returned[i].sent + y.returned[i].retried + y.returned[i].deadLettered
  {
    RunKeepsInv(Empty(m), es, y);
    assert forall i :: 0 <= i < |y.returned| ==> Balanced(y.returned[i]);
  }
}
