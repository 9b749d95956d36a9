/** When a payout that was recorded as PAID stays PAID. */
module PayoutPaid {
  import opened PayoutOutbox

  /** A write by id that lands on a row which is no longer in the status that its writer acts on. */
  predicate Misses(x: System, c: Call, id: PayoutId) {
    id in x.rows &&
    match c
    case PaySettle(i) => i == id && !x.rows[id].row.status.PROCESSING?
    case PayRefuse(i) => i == id && !x.rows[id].row.status.PROCESSING?
    case PayFail(i) => i == id && !x.rows[id].row.status.PROCESSING?
    case PendingFailed(_, todo, _) => todo != [] && todo[0].id == id && !x.rows[id].row.status.PENDING?
    case StaleNext(_, todo, _) => todo != [] && todo[0].id == id && !x.rows[id].row.status.PROCESSING?
    case _ => false
  }

  /** ... and that writes another status than PAID. */
  predicate Overwrites(x: System, e: Event, id: PayoutId) {
    && e.Step? && e.k in x.calls && Misses(x, x.calls[e.k], id)
    && !x.calls[e.k].PaySettle?
    && (x.calls[e.k].PendingFailed? ==> x.calls[e.k].todo[0].attempts + 1 >= x.maxAttempts)
  }

  lemma OverwriteIff(x: System, e: Event, id: PayoutId)
    requires Enabled(x, e) && id in x.rows && x.rows[id].row.status.PAID?
    ensures id in Apply(x, e).rows
    ensures !Apply(x, e).rows[id].row.status.PAID? <==> Overwrites(x, e, id)
  {}

  ghost predicate StaysPaid(x: System, es: seq<Event>, id: PayoutId)
    decreases es
  {
    && id in x.rows && x.rows[id].row.status.PAID?
    && (es != [] ==> Enabled(x, es[0]) && StaysPaid(Apply(x, es[0]), es[1..], id))
  }

  ghost predicate NoOverwrite(x: System, es: seq<Event>, id: PayoutId)
    decreases es
  {
    es != [] ==> Enabled(x, es[0]) && !Overwrites(x, es[0], id) && NoOverwrite(Apply(x, es[0]), es[1..], id)
  }

  /** Over whole runs: PAID is kept if and only if no unguarded write lands on the row out of turn. */
  lemma {:induction false} PaidKeptIff(x: System, es: seq<Event>, y: System, id: PayoutId)
    requires Runs(x, es, y) && id in x.rows && x.rows[id].row.status.PAID?
    ensures StaysPaid(x, es, id) <==> NoOverwrite(x, es, id)
    decreases es
  {
    if es != [] {
      OverwriteIff(x, es[0], id);
      if Apply(x, es[0]).rows[id].row.status.PAID? {
        PaidKeptIff(Apply(x, es[0]), es[1..], y, id);
      }
    }
  }

  // ---- the two guards that are missing ----

  /** A worker that has claimed the row and has not recorded an outcome yet. */
  predicate Holding(c: Call) {
    c.PayLoad? || c.PaySubmit? || c.PaySettle? || c.PayRefuse? || c.PayFail?
  }

  predicate Holds(c: Call, id: PayoutId) {
    Holding(c) && c.id == id
  }

  ghost predicate Held(calls: map<nat, Call>, id: PayoutId) {
    exists k :: k in calls && Holds(calls[k], id)
  }

  /**
   * A drain writes only to a row that still has the status it was selected by, and makes a row PENDING again only
   * if no live worker holds a claim on it.
   */
  ghost predicate Guarded(x: System, e: Event) {
    e.Step? && e.k in x.calls && (x.calls[e.k].PendingFailed? || x.calls[e.k].StaleNext?) && x.calls[e.k].todo != [] ==>
      var c := x.calls[e.k];
      && !Misses(x, c, c.todo[0].id)
      && (c.StaleNext? && c.todo[0].attempts < x.maxAttempts ==> !Held(x.calls, c.todo[0].id))
  }

  ghost predicate RunsGuarded(x: System, es: seq<Event>, y: System)
    decreases es
  {
    if es == [] then y == x
    else Enabled(x, es[0]) && Guarded(x, es[0]) && RunsGuarded(Apply(x, es[0]), es[1..], y)
  }

  ghost predicate OneHolder(calls: map<nat, Call>) {
    forall j, k :: j in calls && k in calls && Holding(calls[j]) && Holds(calls[k], calls[j].id) ==> j == k
  }

  /** A row has at most one holder, and a held row is neither PENDING nor PAID. */
  ghost predicate HoldersOk(x: System) {
    && OneHolder(x.calls)
    && (forall k :: k in x.calls && Holding(x.calls[k]) ==> HeldStatus(x.rows, x.calls[k].id))
  }

  predicate HeldStatus(rows: map<PayoutId, Entry>, id: PayoutId) {
    id in rows && (rows[id].row.status.PROCESSING? || rows[id].row.status.FAILED?)
  }

  /** In a guarded step, a held row keeps a status that only its holder can leave. */
  lemma HeldStatusKept(x: System, e: Event, id: PayoutId)
    requires HoldersOk(x) && Enabled(x, e) && Guarded(x, e)
    requires Held(x.calls, id) && (e.Step? ==> !Holds(x.calls[e.k], id))
    ensures HeldStatus(Apply(x, e).rows, id)
  {
    var k :| k in x.calls && Holds(x.calls[k], id);
    assert HeldStatus(x.rows, id);
  }

  lemma OwnStatusKept(x: System, k: nat, o: Oracle, id: PayoutId)
    requires Enabled(x, Step(k, o))
    requires Holds(x.calls[k], id) ==> HeldStatus(x.rows, id)
    requires k in Apply(x, Step(k, o)).calls && Holds(Apply(x, Step(k, o)).calls[k], id)
    ensures HeldStatus(Apply(x, Step(k, o)).rows, id)
    ensures Holds(x.calls[k], id) || (id in x.rows && x.rows[id].row.status.PENDING?)
  {}

  /** A holder after the step was one before, or has just claimed a PENDING row, which no one held. */
  lemma HolderBefore(x: System, e: Event, k: nat, id: PayoutId)
    requires HoldersOk(x) && Enabled(x, e) && Guarded(x, e)
    requires k in Apply(x, e).calls && Holds(Apply(x, e).calls[k], id)
    ensures HeldStatus(Apply(x, e).rows, id)
    ensures (k in x.calls && Holds(x.calls[k], id)) || (e.Step? && k == e.k && !Held(x.calls, id))
  {
    if e.Step? && k == e.k {
      if Holds(x.calls[k], id) { assert HeldStatus(x.rows, id); }
      OwnStatusKept(x, k, e.oracle, id);
      if Held(x.calls, id) {
        var j :| j in x.calls && Holds(x.calls[j], id);
        assert HeldStatus(x.rows, id);
      }
    } else {
      assert k in x.calls && x.calls[k] == Apply(x, e).calls[k];
      HeldStatusKept(x, e, id);
    }
  }

  lemma StepKeepsHolders(x: System, e: Event)
    requires HoldersOk(x) && Enabled(x, e) && Guarded(x, e)
    ensures HoldersOk(Apply(x, e))
  {
    var y := Apply(x, e);
    forall k | k in y.calls && Holding(y.calls[k])
      ensures HeldStatus(y.rows, y.calls[k].id)
    {
      HolderBefore(x, e, k, y.calls[k].id);
    }
    forall j, k | j in y.calls && k in y.calls && Holding(y.calls[j]) && Holds(y.calls[k], y.calls[j].id)
      ensures j == k
    {
      HolderBefore(x, e, j, y.calls[j].id);
      HolderBefore(x, e, k, y.calls[j].id);
    }
  }

  /** With the guards, a PAID row has no holder left and no drain may write to it. */
  lemma GuardedKeepsPaid(x: System, e: Event, id: PayoutId)
    requires HoldersOk(x) && Enabled(x, e) && Guarded(x, e) && id in x.rows && x.rows[id].row.status.PAID?
    ensures id in Apply(x, e).rows && Apply(x, e).rows[id].row.status.PAID?
  {
    OverwriteIff(x, e, id);
  }

  lemma {:induction false} RunKeepsHolders(x: System, es: seq<Event>, y: System)
    requires HoldersOk(x) && RunsGuarded(x, es, y)
    ensures HoldersOk(y)
    decreases es
  {
    if es != [] {
      StepKeepsHolders(x, es[0]);
      RunKeepsHolders(Apply(x, es[0]), es[1..], y);
    }
  }

  lemma {:induction false} RunKeepsPaid(x: System, es: seq<Event>, y: System, id: PayoutId)
    requires HoldersOk(x) && RunsGuarded(x, es, y) && id in x.rows && x.rows[id].row.status.PAID?
    ensures id in y.rows && y.rows[id].row.status.PAID?
    decreases es
  {
    if es != [] {
      GuardedKeepsPaid(x, es[0], id);
      StepKeepsHolders(x, es[0]);
      RunKeepsPaid(Apply(x, es[0]), es[1..], y, id);
    }
  }

  /**
   * In every run whose drains keep both guards, whatever overlaps or dies, a row has at most one live worker, and
   * a row that is PAID stays PAID.
   */
  lemma PaidIsFinalWhenGuarded(m: int, before: seq<Event>, x: System, after: seq<Event>, y: System, id: PayoutId)
    requires RunsGuarded(Empty(m), before, x) && RunsGuarded(x, after, y)
    requires id in x.rows && x.rows[id].row.status.PAID?
    ensures id in y.rows && y.rows[id].row.status.PAID?
    ensures OneHolder(x.calls)
  {
    RunKeepsHolders(Empty(m), before, x);
    RunKeepsPaid(x, after, y, id);
  }
}
