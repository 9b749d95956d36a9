/**
 * How often a notification row is enqueued: the bound, and the one thing that breaks it, which is a drain that
 * writes back an attempt count older than the row's.
 */
module NotificationBounds {
  import opened Common
  import opened NotificationOutbox

  function Limit(maxAttempts: int): nat {
    if maxAttempts < 1 then 1 else maxAttempts
  }

  /** The failure write of a drain whose row has more attempts by now than the drain had read. */
  predicate LosesAttempt(rows: map<OutboxId, Row>, c: Call) {
    && c.MarkFailed? && c.todo != [] && c.todo[0].id in rows
    && c.todo[0].attempts < rows[c.todo[0].id].attempts
  }

  /** Such a write does not raise the attempt count exactly if the count has moved past the one that was read. */
  lemma LosesAttemptIff(m: int, rows: map<OutboxId, Row>, c: Call, o: Oracle)
    requires c.MarkFailed? && c.todo != [] && c.todo[0].id in rows && o.ok
    ensures var id := c.todo[0].id;
            Advance(m, rows, c, o).0[id].attempts <= rows[id].attempts <==> LosesAttempt(rows, c)
  {}

  predicate Lost(x: System, e: Event) {
    e.Step? && e.k in x.calls && e.oracle.ok && LosesAttempt(x.rows, x.calls[e.k])
  }

  ghost predicate NoneLost(x: System, es: seq<Event>)
    decreases es
  {
    es != [] ==> Enabled(x, es[0]) && !Lost(x, es[0]) && NoneLost(Apply(x, es[0]), es[1..])
  }

  /** The attempts of a row tell its enqueues: equal while PENDING, at most one behind while PROCESSING. */
  predicate RowOk(r: Row, m: int) {
    match r.status
    case PENDING => r.enqueues == r.attempts && r.attempts < Limit(m)
    case PROCESSING => r.attempts <= r.enqueues <= r.attempts + 1 && r.attempts < Limit(m)
    case _ => r.enqueues <= Limit(m)
  }

  predicate Final(r: Row) {
    r.status.SENT? || r.status.DEAD_LETTER?
  }

  /** Snapshots never run ahead of a row, and the owner's position tells whether its enqueue is counted yet. */
  ghost predicate StageOk(rows: map<OutboxId, Row>, c: Call) {
    !c.Start? ==>
      && (forall i :: 0 <= i < |c.todo| && c.todo[i].id in rows && !Final(rows[c.todo[i].id]) ==>
            c.todo[i].attempts <= rows[c.todo[i].id].attempts)
      && (c.Enqueue? && c.todo != [] && c.todo[0].id in rows ==>
            rows[c.todo[0].id].enqueues == rows[c.todo[0].id].attempts)
      && ((c.MarkSent? || c.MarkFailed?) && c.todo != [] && c.todo[0].id in rows ==>
            rows[c.todo[0].id].enqueues == rows[c.todo[0].id].attempts + 1)
  }

  ghost predicate RowsOk(rows: map<OutboxId, Row>, m: int) {
    forall id :: id in rows ==> RowOk(rows[id], m)
  }

  ghost predicate CountInv(x: System) {
    && Inv(x)
    && RowsOk(x.rows, x.maxAttempts)
    && (forall k :: k in x.calls ==> StageOk(x.rows, x.calls[k]))
  }

  /** The step of the one drain: its own row and position. */
  lemma OwnStepCounts(m: int, rows: map<OutboxId, Row>, c: Call, o: Oracle)
    requires RowsOk(rows, m) && StageOk(rows, c) && CallOk(rows, c)
    requires c.Start? ==> forall i :: 0 <= i < |o.ids| ==> o.ids[i] in rows
    requires forall id :: id in rows && Owns(c, id) ==> rows[id].status.PROCESSING?
    requires o.ok ==> !LosesAttempt(rows, c)
    ensures RowsOk(Advance(m, rows, c, o).0, m)
  {
    if !c.Start? && c.todo != [] {
      assert RowOk(rows[c.todo[0].id], m);
      if !c.Next? { assert Owns(c, c.todo[0].id); }
    }
  }

  lemma OwnStageKept(m: int, rows: map<OutboxId, Row>, c: Call, o: Oracle)
    requires RowsOk(rows, m) && StageOk(rows, c) && CallOk(rows, c)
    requires c.Start? ==> forall i :: 0 <= i < |o.ids| ==> o.ids[i] in rows
    requires forall id :: id in rows && Owns(c, id) ==> rows[id].status.PROCESSING?
    requires o.ok ==> !LosesAttempt(rows, c)
    ensures var (rows', move) := Advance(m, rows, c, o); move.Goto? ==> StageOk(rows', move.call)
  {
    if !c.Start? && c.todo != [] {
      assert RowOk(rows[c.todo[0].id], m);
      if !c.Next? { assert Owns(c, c.todo[0].id); }
    }
  }

  /** A row that is not final and stays so never loses attempts, and only its owner touches it. */
  lemma OtherStageKept(m: int, rows: map<OutboxId, Row>, c: Call, o: Oracle, d: Call)
    requires RowsOk(rows, m) && StageOk(rows, c) && StageOk(rows, d) && CallOk(rows, c)
    requires c.Start? ==> forall i :: 0 <= i < |o.ids| ==> o.ids[i] in rows
    requires forall id :: id in rows && (Owns(c, id) || Owns(d, id)) ==> rows[id].status.PROCESSING?
    requires forall id :: id in rows ==> !(Owns(c, id) && Owns(d, id))
    requires o.ok ==> !LosesAttempt(rows, c)
    ensures StageOk(Advance(m, rows, c, o).0, d)
  {
    if !d.Start? && d.todo != [] && !d.Next? { assert Owns(d, d.todo[0].id); }
    if !c.Start? && c.todo != [] && !c.Next? { assert Owns(c, c.todo[0].id); }
  }

  lemma OwnersProcess(x: System, k: nat, id: OutboxId)
    requires Inv(x) && k in x.calls && Owns(x.calls[k], id) && id in x.rows
    ensures x.rows[id].status.PROCESSING?
    ensures forall j :: j in x.calls && Owns(x.calls[j], id) ==> j == k
  {
    assert Owned(x.calls, id) && OneOwner(x.calls, id);
  }

  lemma StepCounts(x: System, k: nat, o: Oracle)
    requires CountInv(x) && Enabled(x, Step(k, o)) && !Lost(x, Step(k, o))
    ensures CountInv(Apply(x, Step(k, o)))
  {
    var c := x.calls[k];
    var y := Apply(x, Step(k, o));
    EventKeepsInv(x, Step(k, o));
    assert CallOk(x.rows, c) && StageOk(x.rows, c);
    forall id | id in x.rows && Owns(c, id)
      ensures x.rows[id].status.PROCESSING?
    {
      OwnersProcess(x, k, id);
    }
    OwnStepCounts(x.maxAttempts, x.rows, c, o);
    OwnStageKept(x.maxAttempts, x.rows, c, o);
    forall j | j in y.calls
      ensures StageOk(y.rows, y.calls[j])
    {
      if j != k {
        OtherCallCounts(x, k, o, j);
      } else if Advance(x.maxAttempts, x.rows, c, o).1.Throw? {
        ThrowKeepsRows(x.maxAttempts, x.rows, c, o);
      }
    }
  }

  lemma ThrowKeepsRows(m: int, rows: map<OutboxId, Row>, c: Call, o: Oracle)
    requires c.Start? ==> forall i :: 0 <= i < |o.ids| ==> o.ids[i] in rows
    ensures Advance(m, rows, c, o).1.Throw? ==> Advance(m, rows, c, o).0 == rows
  {}

  lemma OtherCallCounts(x: System, k: nat, o: Oracle, j: nat)
    requires CountInv(x) && Enabled(x, Step(k, o)) && !Lost(x, Step(k, o)) && j in x.calls && j != k
    ensures StageOk(Advance(x.maxAttempts, x.rows, x.calls[k], o).0, x.calls[j])
  {
    var c, d := x.calls[k], x.calls[j];
    assert CallOk(x.rows, c) && StageOk(x.rows, c) && StageOk(x.rows, d);
    forall id | id in x.rows
      ensures Owns(c, id) || Owns(d, id) ==> x.rows[id].status.PROCESSING?
      ensures !(Owns(c, id) && Owns(d, id))
    {
      if Owns(c, id) { OwnersProcess(x, k, id); }
      if Owns(d, id) { OwnersProcess(x, j, id); }
    }
    OtherStageKept(x.maxAttempts, x.rows, c, o, d);
  }

  lemma EventCounts(x: System, e: Event)
    requires CountInv(x) && Enabled(x, e) && !Lost(x, e)
    ensures CountInv(Apply(x, e))
  {
    if e.Step? {
      StepCounts(x, e.k, e.oracle);
    } else {
      EventKeepsInv(x, e);
      forall k | k in x.calls
        ensures StageOk(Apply(x, e).rows, x.calls[k])
      {
        assert CallOk(x.rows, x.calls[k]) && StageOk(x.rows, x.calls[k]);
      }
    }
  }

  lemma {:induction false} RunCounts(x: System, es: seq<Event>, y: System)
    requires CountInv(x) && Runs(x, es, y) && NoneLost(x, es)
    ensures CountInv(y) && y.maxAttempts == x.maxAttempts
    decreases es
  {
    if es != [] {
      EventCounts(x, es[0]);
      RunCounts(Apply(x, es[0]), es[1..], y);
    }
  }

  /**
   * By a guard that a drain could check before its write: in every run in which no failure write finds an attempt
   * count that has moved past the one its drain had read, each row is enqueued at most maxAttempts times (once if
   * that is below 1), however many drains overlap.
   */
  lemma EnqueuesBoundedCurrent(m: int, es: seq<Event>, y: System, id: OutboxId)
    requires Runs(Empty(m), es, y) && NoneLost(Empty(m), es) && id in y.rows
    ensures y.rows[id].enqueues <= Limit(m)
  {
    RunCounts(Empty(m), es, y);
    assert RowOk(y.rows[id], m);
  }

  // ---- the guard is exact for the accounting ----

  /** Every PENDING row has exactly as many attempts as enqueues. */
  predicate Accounted(rows: map<OutboxId, Row>) {
    forall id :: id in rows && rows[id].status.PENDING? ==> rows[id].enqueues == rows[id].attempts
  }

  ghost predicate AlwaysAccounted(x: System, es: seq<Event>)
    decreases es
  {
    Accounted(x.rows) && (es != [] ==> Enabled(x, es[0]) && AlwaysAccounted(Apply(x, es[0]), es[1..]))
  }

  /** A lost attempt leaves a PENDING row with more enqueues than attempts. */
  lemma LossShows(x: System, e: Event)
    requires CountInv(x) && Enabled(x, e) && Lost(x, e)
    ensures !Accounted(Apply(x, e).rows)
  {
    var c := x.calls[e.k];
    var id := c.todo[0].id;
    assert StageOk(x.rows, c) && Owns(c, id);
    OwnersProcess(x, e.k, id);
    assert RowOk(x.rows[id], x.maxAttempts);
    var r := Apply(x, e).rows[id];
    assert r.status.PENDING? && r.enqueues == x.rows[id].attempts + 1 && r.attempts == c.todo[0].attempts + 1;
  }

  lemma {:induction false} AccountedIffFrom(x: System, es: seq<Event>, y: System)
    requires CountInv(x) && Runs(x, es, y)
    ensures AlwaysAccounted(x, es) <==> NoneLost(x, es)
    decreases es
  {
    forall id | id in x.rows && x.rows[id].status.PENDING?
      ensures x.rows[id].enqueues == x.rows[id].attempts
    {
      assert RowOk(x.rows[id], x.maxAttempts);
    }
    if es != [] {
      if Lost(x, es[0]) {
        LossShows(x, es[0]);
      } else {
        EventCounts(x, es[0]);
        AccountedIffFrom(Apply(x, es[0]), es[1..], y);
      }
    }
  }

  /** Over whole runs: attempts account for all enqueues of PENDING rows if and only if no write loses an attempt. */
  lemma AccountedIff(m: int, es: seq<Event>, y: System)
    requires Runs(Empty(m), es, y)
    ensures AlwaysAccounted(Empty(m), es) <==> NoneLost(Empty(m), es)
  {
    AccountedIffFrom(Empty(m), es, y);
  }

  // ---- one live drain at a time ----

  ghost predicate OneLive(x: System) {
    forall j, k :: j in x.calls && k in x.calls && j !in x.dead && k !in x.dead ==> j == k
  }

  ghost predicate RunsAlone(x: System, es: seq<Event>, y: System)
    decreases es
  {
    && OneLive(x)
    && if es == [] then y == x
       else Enabled(x, es[0]) && RunsAlone(Apply(x, es[0]), es[1..], y)
  }

  /** The snapshots of a live drain are still current. */
  ghost predicate LiveOk(rows: map<OutboxId, Row>, c: Call) {
    !c.Start? ==>
      && (forall i, j :: 0 <= i < j < |c.todo| ==> c.todo[i].id != c.todo[j].id)
      && (forall i :: 0 <= i < |c.todo| ==> c.todo[i].id in rows && rows[c.todo[i].id].attempts == c.todo[i].attempts)
  }

  ghost predicate AloneInv(x: System) {
    forall k :: k in x.calls && k !in x.dead ==> LiveOk(x.rows, x.calls[k])
  }

  lemma AdvanceAlone(m: int, rows: map<OutboxId, Row>, c: Call, o: Oracle)
    requires LiveOk(rows, c)
    requires c.Start? ==> Distinct(o.ids) && forall i :: 0 <= i < |o.ids| ==> o.ids[i] in rows
    ensures var (rows', move) := Advance(m, rows, c, o); move.Goto? ==> LiveOk(rows', move.call)
  {}

  lemma EventAlone(x: System, e: Event)
    requires AloneInv(x) && OneLive(x) && Enabled(x, e)
    ensures AloneInv(Apply(x, e)) && !Lost(x, e)
  {
    if e.Step? {
      assert LiveOk(x.rows, x.calls[e.k]);
      AdvanceAlone(x.maxAttempts, x.rows, x.calls[e.k], e.oracle);
    } else if e.Create? {
      forall k | k in x.calls && k !in x.dead
        ensures LiveOk(Apply(x, e).rows, x.calls[k])
      {
        assert LiveOk(x.rows, x.calls[k]);
      }
    }
  }

  lemma {:induction false} AloneLosesNothing(x: System, es: seq<Event>, y: System)
    requires AloneInv(x) && RunsAlone(x, es, y)
    ensures Runs(x, es, y) && NoneLost(x, es)
    decreases es
  {
    if es != [] {
      EventAlone(x, es[0]);
      AloneLosesNothing(Apply(x, es[0]), es[1..], y);
    }
  }

  /** When live drains do not overlap no attempt is lost, so a row is enqueued at most maxAttempts times. */
  lemma EnqueuesBoundedAlone(m: int, es: seq<Event>, y: System, id: OutboxId)
    requires RunsAlone(Empty(m), es, y) && id in y.rows
    ensures y.rows[id].enqueues <= Limit(m)
  {
    AloneLosesNothing(Empty(m), es, y);
    EnqueuesBoundedCurrent(m, es, y, id);
  }
}
