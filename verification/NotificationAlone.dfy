/** A drain of the interleaved outbox with nothing else in between: it does to the rows what it does on the table. */
module NotificationAlone {
  import opened Common
  import opened Backoff
  import opened NotificationOutbox
  import opened NotificationTable

  ghost predicate RunsOnly(x: System, es: seq<Event>, y: System, k: nat) {
    Runs(x, es, y) && forall i :: 0 <= i < |es| ==> es[i].Step? && es[i].k == k
  }

  lemma {:induction false} RunsJoin(x: System, es: seq<Event>, y: System, fs: seq<Event>, z: System, k: nat)
    requires RunsOnly(x, es, y, k) && RunsOnly(y, fs, z, k)
    ensures RunsOnly(x, es + fs, z, k)
    decreases es
  {
    if es == [] {
      assert es + fs == fs;
    } else {
      assert (es + fs)[1..] == es[1..] + fs && (es + fs)[0] == es[0];
      assert RunsOnly(Apply(x, es[0]), es[1..], y, k);
      RunsJoin(Apply(x, es[0]), es[1..], y, fs, z, k);
    }
  }

  lemma StepsOn(x: System, es: seq<Event>, y: System, k: nat, o: Oracle)
    requires RunsOnly(x, es, y, k) && Enabled(y, Step(k, o))
    ensures RunsOnly(x, es + [Step(k, o)], Apply(y, Step(k, o)), k)
  {
    var z := Apply(y, Step(k, o));
    assert ([Step(k, o)])[1..] == [] && Runs(z, [], z);
    RunsJoin(x, es, y, [Step(k, o)], z, k);
  }

  /** A drain that is live, at the top of its loop. */
  ghost predicate AtTop(x: System, k: nat, now: int, todo: seq<Snapshot>, r: DrainResult) {
    k in x.calls && k !in x.dead && x.calls[k] == Next(now, todo, r)
  }

  /** One fetched row is claimed, enqueued or not, and recorded; every write succeeds. */
  lemma DispatchOne(x: System, k: nat, now: int, clock: int, todo: seq<Snapshot>, r: DrainResult, up: bool)
      returns (es: seq<Event>, y: System)
    requires AtTop(x, k, now, todo, r) && now <= clock && todo != [] && todo[0].id in x.rows
    requires x.rows[todo[0].id].status == PENDING && x.rows[todo[0].id].attempts == todo[0].attempts
    ensures RunsOnly(x, es, y, k) && y.rows.Keys == x.rows.Keys
    ensures y.maxAttempts == x.maxAttempts && y.returned == x.returned
    ensures forall id :: id in x.rows && id != todo[0].id ==> y.rows[id] == x.rows[id]
    ensures var after := y.rows[todo[0].id];
            && Dispatched(x.rows[todo[0].id], after, up, x.maxAttempts, clock)
            && AtTop(y, k, now, todo[1..],
                     if up then r.(claimed := r.claimed + 1, sent := r.sent + 1)
                     else if after.status == DEAD_LETTER
                     then r.(claimed := r.claimed + 1, deadLettered := r.deadLettered + 1)
                     else r.(claimed := r.claimed + 1, retried := r.retried + 1))
  {
    var good, answer := Oracle([], true, clock), Oracle([], up, clock);
    assert Runs(x, [], x);
    StepsOn(x, [], x, k, good);
    es, y := [] + [Step(k, good)], Apply(x, Step(k, good));
    StepsOn(x, es, y, k, answer);
    es, y := es + [Step(k, answer)], Apply(y, Step(k, answer));
    StepsOn(x, es, y, k, good);
    es, y := es + [Step(k, good)], Apply(y, Step(k, good));
  }

  /** The rows of these snapshots are PENDING, with the attempts that were read. */
  ghost predicate Current(rows: map<OutboxId, Row>, todo: seq<Snapshot>) {
    && (forall i, j :: 0 <= i < j < |todo| ==> todo[i].id != todo[j].id)
    && (forall i :: 0 <= i < |todo| ==>
          && todo[i].id in rows && rows[todo[i].id].status == PENDING && rows[todo[i].id].attempts == todo[i].attempts)
  }

  ghost predicate Listed(todo: seq<Snapshot>, id: OutboxId) {
    exists i :: 0 <= i < |todo| && todo[i].id == id
  }

  lemma ListedFirst(todo: seq<Snapshot>, id: OutboxId)
    requires todo != []
    ensures Listed(todo, id) <==> id == todo[0].id || Listed(todo[1..], id)
  {
    if Listed(todo, id) && id != todo[0].id {
      var i :| 0 <= i < |todo| && todo[i].id == id;
      assert todo[1..][i - 1].id == id;
    }
    if Listed(todo[1..], id) {
      var i :| 0 <= i < |todo[1..]| && todo[1..][i].id == id;
      assert todo[i + 1].id == id;
    }
  }

  lemma {:induction false} DispatchesAll(x: System, k: nat, now: int, clock: int, todo: seq<Snapshot>, r: DrainResult,
                                         up: set<OutboxId>) returns (es: seq<Event>, y: System, after: DrainResult)
    requires AtTop(x, k, now, todo, r) && now <= clock && Current(x.rows, todo)
    ensures RunsOnly(x, es, y, k) && y.rows.Keys == x.rows.Keys && y.returned == x.returned
    ensures AtTop(y, k, now, [], after) && after.claimed == r.claimed + |todo|
    ensures forall id :: id in x.rows ==>
              if Listed(todo, id) then Dispatched(x.rows[id], y.rows[id], id in up, x.maxAttempts, clock)
              else y.rows[id] == x.rows[id]
    decreases |todo|
  {
    if todo == [] {
      es, y, after := [], x, r;
    } else {
      var id := todo[0].id;
      var x1: System;
      es, x1 := DispatchOne(x, k, now, clock, todo, r, id in up);
      forall i | 0 <= i < |todo[1..]|
        ensures todo[1..][i].id != id && x1.rows[todo[1..][i].id] == x.rows[todo[1..][i].id]
      {
        assert todo[1..][i] == todo[i + 1];
      }
      var fs;
      fs, y, after := DispatchesAll(x1, k, now, clock, todo[1..], x1.calls[k].result, up);
      RunsJoin(x, es, x1, fs, y, k);
      es := es + fs;
      forall j
        ensures Listed(todo, j) <==> j == id || Listed(todo[1..], j)
      {
        ListedFirst(todo, j);
      }
      assert !Listed(todo[1..], id);
    }
  }

  /** The first step of a drain reads the due rows it is handed. */
  lemma Reads(x: System, k: nat, now: int, clock: int, fetched: seq<OutboxId>) returns (y: System, todo: seq<Snapshot>)
    requires k in x.calls && k !in x.dead && x.calls[k] == Start(now) && now <= clock && Distinct(fetched)
    requires forall id :: id in fetched ==>
               id in x.rows && x.rows[id].status == PENDING && x.rows[id].nextAttemptAt <= now
    ensures RunsOnly(x, [Step(k, Oracle(fetched, true, clock))], y, k)
    ensures y == x.(calls := y.calls) && AtTop(y, k, now, todo, DrainResult(0, 0, 0, 0))
    ensures Current(y.rows, todo) && |todo| == |fetched| && forall id :: Listed(todo, id) <==> id in fetched
  {
    var o := Oracle(fetched, true, clock);
    assert Runs(x, [], x);
    StepsOn(x, [], x, k, o);
    assert [] + [Step(k, o)] == [Step(k, o)];
    y, todo := Apply(x, Step(k, o)), Snapshots(x.rows, fetched);
    forall id
      ensures Listed(todo, id) <==> id in fetched
    {
      if id in fetched {
        var i :| 0 <= i < |fetched| && fetched[i] == id;
        assert todo[i].id == id;
      }
    }
  }

  /**
   * A drain of the interleaved outbox that runs alone, on any due rows and any enqueues that fail, ends on the rows
   * that the drain of the table ends on, and returns a result that claims exactly the fetched rows.
   */
  lemma DrainAlone(x: System, k: nat, now: int, clock: int, fetched: seq<OutboxId>, up: set<OutboxId>,
                   after: map<OutboxId, Row>) returns (es: seq<Event>, y: System, r: DrainResult)
    requires k in x.calls && k !in x.dead && x.calls[k] == Start(now) && now <= clock && Distinct(fetched)
    requires forall id :: id in fetched ==>
               id in x.rows && x.rows[id].status == PENDING && x.rows[id].nextAttemptAt <= now
    requires Drained(x.rows, after, fetched, up, x.maxAttempts, clock)
    ensures RunsOnly(x, es, y, k) && y.rows == after
    ensures k !in y.calls && y.returned == x.returned + [r] && r.claimed == |fetched|
  {
    var x1, todo := Reads(x, k, now, clock, fetched);
    var fs;
    fs, y, r := DispatchesAll(x1, k, now, clock, todo, DrainResult(0, 0, 0, 0), up);
    es := [Step(k, Oracle(fetched, true, clock))];
    RunsJoin(x, es, x1, fs, y, k);
    es := es + fs;
    var o := Oracle([], true, clock);
    StepsOn(x, es, y, k, o);
    es, y := es + [Step(k, o)], Apply(y, Step(k, o));
  }
}
