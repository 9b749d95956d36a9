/** A run with two overlapping drains that enqueues a notification row more often than maxAttempts. */
module NotificationRuns {
  import opened Common
  import opened NotificationOutbox

  lemma {:induction false} RunsSnoc(x: System, es: seq<Event>, y: System, e: Event)
    requires Runs(x, es, y) && Enabled(y, e)
    ensures Runs(x, es + [e], Apply(y, e))
    decreases es
  {
    if es == [] {
      assert ([e])[1..] == [];
    } else {
      RunsSnoc(Apply(x, es[0]), es[1..], y, e);
      assert (es + [e])[1..] == es[1..] + [e];
    }
  }

  /** Some run leads to a system with the one row, the given live drains, and all call numbers from `top` unused. */
  ghost predicate At(m: int, row: Row, live: map<nat, Call>, top: nat) {
    exists es, y :: Runs(Empty(m), es, y) && Shows(m, y, row, live, top)
  }

  ghost predicate Shows(m: int, y: System, row: Row, live: map<nat, Call>, top: nat) {
    && y.maxAttempts == m
    && y.rows == map[0 := row]
    && (forall k :: k in live ==> k in y.calls && k !in y.dead && y.calls[k] == live[k])
    && (forall k :: top <= k ==> k !in y.calls && k !in y.dead)
  }

  lemma AtStep(m: int, row: Row, live: map<nat, Call>, top: nat, k: nat, o: Oracle, row': Row, c: Call)
    requires At(m, row, live, top) && k in live && k < top
    requires live[k].Start? ==> Distinct(o.ids) && forall i :: 0 <= i < |o.ids| ==>
        o.ids[i] == 0 && Due(row, live[k].now)
    requires live[k].now <= o.clock
    requires var (rows, move) := Advance(m, map[0 := row], live[k], o); rows == map[0 := row'] && move == Goto(c)
    ensures At(m, row', live[k := c], top)
  {
    var es, y :| Runs(Empty(m), es, y) && Shows(m, y, row, live, top);
    RunsSnoc(Empty(m), es, y, Step(k, o));
    assert Shows(m, Apply(y, Step(k, o)), row', live[k := c], top);
  }

  lemma AtBegin(m: int, row: Row, live: map<nat, Call>, top: nat, now: int)
    requires At(m, row, live, top)
    ensures At(m, row, live[top := Start(now)], top + 1)
  {
    var es, y :| Runs(Empty(m), es, y) && Shows(m, y, row, live, top);
    RunsSnoc(Empty(m), es, y, Begin(top, now));
    assert Shows(m, Apply(y, Begin(top, now)), row, live[top := Start(now)], top + 1);
  }

  lemma AtForget(m: int, row: Row, live: map<nat, Call>, fewer: map<nat, Call>, top: nat)
    requires At(m, row, live, top)
    requires forall k :: k in fewer ==> k in live && live[k] == fewer[k]
    ensures At(m, row, fewer, top)
  {
    var es, y :| Runs(Empty(m), es, y) && Shows(m, y, row, live, top);
    assert Shows(m, y, row, fewer, top);
  }

  const NO_RESULT := DrainResult(0, 0, 0, 0)

  /** A drain that started when the row was due, with the row as it read it. */
  function Read(now: int, attempts: nat): Call {
    Next(now, [Snapshot(0, attempts)], NO_RESULT)
  }

  /** A new drain reads the row as due. */
  lemma DrainReads(m: int, row: Row, live: map<nat, Call>, top: nat)
    requires At(m, row, live, top) && row.status.PENDING?
    ensures At(m, row, live[top := Read(row.nextAttemptAt, row.attempts)], top + 1)
  {
    var now := row.nextAttemptAt;
    AtBegin(m, row, live, top, now);
    var live1 := live[top := Start(now)];
    assert Snapshots(map[0 := row], [0]) == [Snapshot(0, row.attempts)];
    AtStep(m, row, live1, top + 1, top, Oracle([0], true, now), row, Read(now, row.attempts));
    assert live1[top := Read(now, row.attempts)] == live[top := Read(now, row.attempts)];
  }

  /** The row after a failed enqueue, written back at `now` by a drain that had read `read` attempts. */
  function AfterFailure(row: Row, read: nat, m: int, now: int): Row {
    FailedRow(row.(enqueues := row.enqueues + 1), Snapshot(0, read), m, now)
  }

  /** A drain that read `read` attempts claims the row, fails to enqueue it, and writes it back. */
  lemma DrainFails(m: int, row: Row, live: map<nat, Call>, top: nat, k: nat, read: nat, now: int)
    requires At(m, row, live, top) && row.status.PENDING?
    requires k in live && k < top && live[k] == Read(now, read)
    ensures At(m, AfterFailure(row, read, m, now), live - {k}, top)
  {
    var todo := [Snapshot(0, read)];
    var r1 := NO_RESULT.(claimed := 1);
    var row1 := row.(status := PROCESSING);
    AtStep(m, row, live, top, k, Oracle([], true, now), row1, Enqueue(now, todo, r1));
    var live1 := live[k := Enqueue(now, todo, r1)];
    var row2 := row1.(enqueues := row.enqueues + 1);
    AtStep(m, row1, live1, top, k, Oracle([], false, now), row2, MarkFailed(now, todo, r1));
    var live2 := live1[k := MarkFailed(now, todo, r1)];
    var done := Next(now, todo[1..], if read + 1 >= m then r1.(deadLettered := 1) else r1.(retried := 1));
    AtStep(m, row2, live2, top, k, Oracle([], true, now), AfterFailure(row, read, m, now), done);
    AtForget(m, AfterFailure(row, read, m, now), live2[k := done], live - {k}, top);
  }

  const NO_CALLS: map<nat, Call> := map[]

  /** A drain alone: it reads the row and fails to enqueue it. */
  lemma LoneFailure(m: int, row: Row, top: nat)
    requires At(m, row, NO_CALLS, top) && row.status.PENDING?
    ensures At(m, AfterFailure(row, row.attempts, m, row.nextAttemptAt), NO_CALLS, top + 1)
  {
    var read := Read(row.nextAttemptAt, row.attempts);
    DrainReads(m, row, NO_CALLS, top);
    DrainFails(m, row, NO_CALLS[top := read], top + 1, top, row.attempts, row.nextAttemptAt);
    assert NO_CALLS[top := read] - {top} == NO_CALLS;
  }

  function FailedTwice(row: Row, m: int): Row {
    AfterFailure(AfterFailure(row, row.attempts, m, row.nextAttemptAt), row.attempts, m, row.nextAttemptAt)
  }

  /** Two drains that read the same attempt count, then both fail, leave it only one higher. */
  lemma OverlappingFailures(m: int, row: Row, top: nat)
    requires At(m, row, NO_CALLS, top) && row.status.PENDING? && row.attempts + 1 < m
    ensures At(m, FailedTwice(row, m), NO_CALLS, top + 2)
  {
    var now := row.nextAttemptAt;
    var read := Read(now, row.attempts);
    DrainReads(m, row, NO_CALLS, top);
    var one := NO_CALLS[top := read];
    DrainReads(m, row, one, top + 1);
    var both := one[top + 1 := read];
    DrainFails(m, row, both, top + 2, top, row.attempts, now);
    var second := both - {top};
    DrainFails(m, AfterFailure(row, row.attempts, m, now), second, top + 2, top + 1, row.attempts, now);
    assert second - {top + 1} == NO_CALLS;
  }

  /** One drain after another fails: as many enqueues as attempts. */
  lemma {:induction false} FailedAttempts(m: int, a: nat) returns (row: Row, top: nat)
    requires a < m
    ensures At(m, row, NO_CALLS, top)
    ensures row.status.PENDING? && row.attempts == a && row.enqueues == a
  {
    if a == 0 {
      row, top := Row(PENDING, 0, 0, 0), 0;
      var y := Apply(Empty(m), Create(0, 0));
      assert Runs(Empty(m), [], Empty(m));
      RunsSnoc(Empty(m), [], Empty(m), Create(0, 0));
      assert Shows(m, y, row, NO_CALLS, 0);
    } else {
      var row0, top0 := FailedAttempts(m, a - 1);
      LoneFailure(m, row0, top0);
      row, top := AfterFailure(row0, a - 1, m, row0.nextAttemptAt), top0 + 1;
    }
  }

  /** Two drains that read the same attempt count make one enqueue more than maxAttempts possible. */
  lemma OverlapEnqueuesMore(m: int)
    requires m >= 2
    ensures exists es, y :: Runs(Empty(m), es, y) && 0 in y.rows && y.rows[0].enqueues == m + 1
  {
    var row, top := FailedAttempts(m, m - 2);
    OverlappingFailures(m, row, top);
    var row2 := FailedTwice(row, m);
    LoneFailure(m, row2, top + 2);
    var row3 := AfterFailure(row2, m - 1, m, row2.nextAttemptAt);
    var es, y :| Runs(Empty(m), es, y) && Shows(m, y, row3, NO_CALLS, top + 3);
  }
}
