/**
 * The in-process audit queue: logAudit calls interleaved with a drain that is suspended in writes and
 * back-off sleeps. The state lists every drain that is scheduled or running, so that "at most one" is a theorem.
 */
module AuditQueue {
  type Entry = nat
  const MAX_ATTEMPTS := 3

  datatype Item = Item(entry: Entry, attempts: nat)

  /** A drain before its first turn, awaiting a write of the batch's head, or asleep before retrying it. */
  datatype Drain = Scheduled | Writing(batch: seq<Item>) | Sleeping(batch: seq<Item>)

  datatype Ended = Ended(entry: Entry, written: bool, attempts: nat)

  /** `logged` and `ended` record what was logged and how it ended. */
  datatype State = State(queue: seq<Item>, draining: bool, drains: seq<Drain>, logged: seq<Entry>, ended: seq<Ended>)

  datatype Event =
    | LogAudit(entry: Entry)
    | Start(i: nat)
    | WriteDone(i: nat, ok: bool)
    | Wake(i: nat)

  predicate Enabled(s: State, e: Event) {
    match e
    case LogAudit(_) => true
    case Start(i) => i < |s.drains| && s.drains[i].Scheduled?
    case WriteDone(i, _) => i < |s.drains| && s.drains[i].Writing? && s.drains[i].batch != []
    case Wake(i) => i < |s.drains| && s.drains[i].Sleeping? && s.drains[i].batch != []
  }

  function Attempt(batch: seq<Item>): seq<Item>
    requires batch != []
  {
    batch[0 := batch[0].(attempts := batch[0].attempts + 1)]
  }

  /** The top of `while (queue.length > 0)`: take everything and start writing, or stop draining. */
  function LoopTop(s: State, i: nat): State
    requires i < |s.drains|
  {
    if s.queue != [] then s.(queue := [], drains := s.drains[i := Writing(Attempt(s.queue))])
    else s.(draining := false, drains := s.drains[..i] + s.drains[i + 1..])
  }

  /** The head of the batch is done with: on to the next item, or back to the loop's top. */
  function Finish(s: State, i: nat, batch: seq<Item>, written: bool): State
    requires i < |s.drains| && batch != []
  {
    var s1 := s.(ended := s.ended + [Ended(batch[0].entry, written, batch[0].attempts)]);
    if batch[1..] != [] then s1.(drains := s1.drains[i := Writing(Attempt(batch[1..]))])
    else LoopTop(s1, i)
  }

  function Apply(s: State, e: Event): State
    requires Enabled(s, e)
  {
    match e
    case LogAudit(entry) =>
      var s1 := s.(queue := s.queue + [Item(entry, 0)], logged := s.logged + [entry]);
      if s.draining then s1 else s1.(draining := true, drains := s1.drains + [Scheduled])
    case Start(i) => LoopTop(s, i)
    case WriteDone(i, ok) =>
      var batch := s.drains[i].batch;
      if ok then Finish(s, i, batch, true)
      else if batch[0].attempts < MAX_ATTEMPTS then s.(drains := s.drains[i := Sleeping(batch)])
      else Finish(s, i, batch, false)
    case Wake(i) => s.(drains := s.drains[i := Writing(Attempt(s.drains[i].batch))])
  }

  const INITIAL := State([], false, [], [], [])

  ghost predicate Runs(s: State, es: seq<Event>, t: State)
    decreases es
  {
    if es == [] then t == s
    else Enabled(s, es[0]) && Runs(Apply(s, es[0]), es[1..], t)
  }

  function Entries(items: seq<Item>): seq<Entry> {
    seq(|items|, i requires 0 <= i < |items| => items[i].entry)
  }

  function EndedEntries(ended: seq<Ended>): seq<Entry> {
    seq(|ended|, i requires 0 <= i < |ended| => ended[i].entry)
  }

  function InHand(drains: seq<Drain>): seq<Item> {
    if |drains| == 1 && !drains[0].Scheduled? then drains[0].batch else []
  }

  ghost predicate BatchOk(batch: seq<Item>, low: nat, high: nat) {
    && batch != [] && low <= batch[0].attempts <= high
    && forall i :: 1 <= i < |batch| ==> batch[i].attempts == 0
  }

  ghost predicate Inv(s: State) {
    && |s.drains| == (if s.draining then 1 else 0)
    && (s.queue != [] ==> s.draining)
    && s.logged == EndedEntries(s.ended) + Entries(InHand(s.drains)) + Entries(s.queue)
    && (forall i :: 0 <= i < |s.queue| ==> s.queue[i].attempts == 0)
    && (forall i :: 0 <= i < |s.ended| ==>
          1 <= s.ended[i].attempts <= MAX_ATTEMPTS && (s.ended[i].written || s.ended[i].attempts == MAX_ATTEMPTS))
    && (|s.drains| == 1 && s.drains[0].Writing? ==> BatchOk(s.drains[0].batch, 1, MAX_ATTEMPTS))
    && (|s.drains| == 1 && s.drains[0].Sleeping? ==> BatchOk(s.drains[0].batch, 1, MAX_ATTEMPTS - 1))
  }

  lemma LoopTopKeeps(s: State)
    requires |s.drains| == 1 && s.draining
    requires s.logged == EndedEntries(s.ended) + Entries(s.queue)
    requires forall i :: 0 <= i < |s.queue| ==> s.queue[i].attempts == 0
    requires forall i :: 0 <= i < |s.ended| ==>
               1 <= s.ended[i].attempts <= MAX_ATTEMPTS && (s.ended[i].written || s.ended[i].attempts == MAX_ATTEMPTS)
    ensures Inv(LoopTop(s, 0))
  {
    var t := LoopTop(s, 0);
    if s.queue != [] {
      assert Entries(Attempt(s.queue)) == Entries(s.queue);
      assert InHand(t.drains) == Attempt(s.queue);
    } else {
      assert t.drains == [];
    }
    assert t.logged == EndedEntries(t.ended) + Entries(InHand(t.drains)) + Entries(t.queue);
  }

  lemma FinishKeeps(s: State, written: bool)
    requires Inv(s) && |s.drains| == 1 && s.drains[0].Writing?
    requires written || s.drains[0].batch[0].attempts == MAX_ATTEMPTS
    ensures Inv(Finish(s, 0, s.drains[0].batch, written))
  {
    var batch := s.drains[0].batch;
    var ended := s.ended + [Ended(batch[0].entry, written, batch[0].attempts)];
    assert EndedEntries(ended) == EndedEntries(s.ended) + [batch[0].entry];
    assert Entries(batch) == [batch[0].entry] + Entries(batch[1..]);
    var s1 := s.(ended := ended);
    if batch[1..] != [] {
      var t := Finish(s, 0, batch, written);
      assert Entries(Attempt(batch[1..])) == Entries(batch[1..]);
      assert InHand(t.drains) == Attempt(batch[1..]);
      assert t.logged == EndedEntries(t.ended) + Entries(InHand(t.drains)) + Entries(t.queue);
    } else {
      assert s1.logged == EndedEntries(s1.ended) + Entries(s1.queue);
      LoopTopKeeps(s1);
    }
  }

  lemma StepKeepsInv(s: State, e: Event)
    requires Inv(s) && Enabled(s, e)
    ensures Inv(Apply(s, e))
  {
    var t := Apply(s, e);
    match e
    case LogAudit(entry) =>
      assert Entries(t.queue) == Entries(s.queue) + [entry];
      assert InHand(t.drains) == InHand(s.drains);
      assert t.logged == EndedEntries(t.ended) + Entries(InHand(t.drains)) + Entries(t.queue);
    case Start(i) =>
      assert s.logged == EndedEntries(s.ended) + Entries(s.queue);
      LoopTopKeeps(s);
    case WriteDone(i, ok) =>
      if ok || s.drains[0].batch[0].attempts >= MAX_ATTEMPTS {
        FinishKeeps(s, ok);
      } else {
        assert InHand(t.drains) == InHand(s.drains);
      }
    case Wake(i) =>
      assert Entries(InHand(t.drains)) == Entries(InHand(s.drains));
  }

  lemma {:induction false} RunKeepsInv(s: State, es: seq<Event>, t: State)
    requires Inv(s) && Runs(s, es, t)
    ensures Inv(t)
    decreases es
  {
    if es != [] {
      StepKeepsInv(s, es[0]);
      RunKeepsInv(Apply(s, es[0]), es[1..], t);
    }
  }

  /**
   * In every interleaving: never more than one drain; entries queued imply one; what was logged is what has
   * ended, then what is in hand, then the queue, in that order; and an entry ends written, or failed after three
   * attempts.
   */
  lemma NothingLost(es: seq<Event>, t: State)
    requires Runs(INITIAL, es, t)
    ensures |t.drains| <= 1 && (t.draining <==> |t.drains| == 1) && (t.queue != [] ==> t.draining)
    ensures t.logged == EndedEntries(t.ended) + Entries(InHand(t.drains)) + Entries(t.queue)
    ensures forall i :: 0 <= i < |t.ended| ==>
              1 <= t.ended[i].attempts <= 3 && (!t.ended[i].written ==> t.ended[i].attempts == 3)
    ensures t.drains == [] ==> t.logged == EndedEntries(t.ended)
  {
    assert INITIAL.logged == EndedEntries(INITIAL.ended) + Entries(InHand(INITIAL.drains)) + Entries(INITIAL.queue);
    RunKeepsInv(INITIAL, es, t);
  }

  ghost predicate Unattempted(items: seq<Item>) {
    forall i :: 0 <= i < |items| ==> items[i].attempts == 0
  }

  /** The service's module state with the functions that change it. */
  class AuditService {
    var queue: seq<Item>
    var draining: bool
    var scheduled: nat
    var ended: seq<Ended>

    constructor ()
      ensures queue == [] && !draining && scheduled == 0 && ended == []
    {
      queue, draining, scheduled, ended := [], false, 0, [];
    }

    method LogAudit(entry: Entry)
      modifies this`queue, this`draining, this`scheduled
      ensures queue == old(queue) + [Item(entry, 0)]
      ensures draining
      ensures scheduled == old(scheduled) + (if old(draining) then 0 else 1)
    {
      queue := queue + [Item(entry, 0)];
      if !draining {
        draining := true;
        scheduled := scheduled + 1;
      }
    }

    /** `failures` is how many writes of this item fail before one succeeds. */
    method WriteWithRetry(item: Item, failures: nat)
      requires item.attempts == 0
      modifies this`ended
      ensures ended == old(ended) + [if failures < MAX_ATTEMPTS then Ended(item.entry, true, failures + 1)
                                     else Ended(item.entry, false, MAX_ATTEMPTS)]
    {
      var attempts := 1;
      while attempts <= failures && attempts < MAX_ATTEMPTS
        invariant 1 <= attempts <= MAX_ATTEMPTS && attempts <= failures + 1
        invariant ended == old(ended)
      {
        attempts := attempts + 1;
      }
      ended := ended + [Ended(item.entry, attempts > failures, attempts)];
    }

    /** How many writes of an entry fail before one succeeds. */
    static function Failures(failures: map<Entry, nat>, e: Entry): nat {
      if e in failures then failures[e] else 0
    }

    /** How each of these entries ends, by how many of its writes fail. */
    static function Outcomes(entries: seq<Entry>, failures: map<Entry, nat>): seq<Ended> {
      if entries == [] then []
      else
        var last := entries[|entries| - 1];
        Outcomes(entries[..|entries| - 1], failures)
        + [if Failures(failures, last) < MAX_ATTEMPTS then Ended(last, true, Failures(failures, last) + 1)
           else Ended(last, false, MAX_ATTEMPTS)]
    }

    /** Entries logged while the k-th write of this drain is in flight, for the first `n` writes. */
    static function Arrived(arrivals: seq<seq<Entry>>, n: nat): seq<Entry> {
      if n == 0 then []
      else Arrived(arrivals, n - 1) + During(arrivals, n - 1)
    }

    method LogAll(entries: seq<Entry>)
      requires draining
      modifies this`queue, this`draining, this`scheduled
      ensures draining && scheduled == old(scheduled)
      ensures Entries(queue) == Entries(old(queue)) + entries
      ensures entries == [] ==> queue == old(queue)
      ensures Unattempted(old(queue))
              ==> Unattempted(queue)
    {
      var i := 0;
      assert entries[..0] == [];
      while i < |entries|
        invariant 0 <= i <= |entries| && draining && scheduled == old(scheduled)
        invariant Entries(queue) == Entries(old(queue)) + entries[..i]
        invariant i == 0 ==> queue == old(queue)
        invariant Unattempted(old(queue))
                  ==> Unattempted(queue)
      {
        ghost var before := queue;
        LogAudit(entries[i]);
        EntriesJoin(before, [Item(entries[i], 0)]);
        assert entries[..i + 1] == entries[..i] + [entries[i]];
        i := i + 1;
      }
      assert entries[..i] == entries;
    }

    static lemma EntriesSnoc(items: seq<Item>, i: nat)
      requires i < |items|
      ensures Entries(items[..i + 1]) == Entries(items[..i]) + [items[i].entry]
    {}

    static lemma EntriesJoin(a: seq<Item>, b: seq<Item>)
      ensures Entries(a + b) == Entries(a) + Entries(b)
    {}

    static lemma OutcomesJoin(a: seq<Entry>, b: seq<Entry>, failures: map<Entry, nat>)
      ensures Outcomes(a + b, failures) == Outcomes(a, failures) + Outcomes(b, failures)
    {
      if b == [] {
        assert a + b == a;
      } else {
        OutcomesJoin(a, b[..|b| - 1], failures);
        assert (a + b)[..|a + b| - 1] == a + b[..|b| - 1];
      }
    }

    static lemma EndedJoin(before: seq<Ended>, a: seq<Entry>, b: seq<Entry>, failures: map<Entry, nat>)
      ensures before + Outcomes(a, failures) + Outcomes(b, failures) == before + Outcomes(a + b, failures)
    {
      OutcomesJoin(a, b, failures);
    }

    /** The entries that arrive during the k-th write. */
    static function During(arrivals: seq<seq<Entry>>, k: nat): seq<Entry> {
      if k < |arrivals| then arrivals[k] else []
    }

    /** One item written with retries while others are logged; `k` writes came before. */
    method WriteItem(item: Item, arrivals: seq<seq<Entry>>, k: nat, failures: map<Entry, nat>, ghost first: nat,
                     ghost done: seq<Entry>, ghost ended0: seq<Ended>)
      requires draining && item.attempts == 0 && Unattempted(queue)
      requires ended == ended0 + Outcomes(done, failures)
      requires Arrived(arrivals, first) + Entries(queue) == Arrived(arrivals, k)
      modifies this
      ensures draining && scheduled == old(scheduled) && Unattempted(queue)
      ensures ended == ended0 + Outcomes(done + [item.entry], failures)
      ensures Arrived(arrivals, first) + Entries(queue) == Arrived(arrivals, k + 1)
      ensures k >= |arrivals| ==> queue == old(queue)
    {
      WriteWithRetry(item, Failures(failures, item.entry));
      assert (done + [item.entry])[..|done|] == done;
      ghost var q := Entries(queue);
      LogAll(During(arrivals, k));
      assert Arrived(arrivals, first) + (q + During(arrivals, k)) == Arrived(arrivals, k) + During(arrivals, k);
    }

    /** The inner loop over one batch; `count` writes came before it. */
    method WriteBatch(batch: seq<Item>, arrivals: seq<seq<Entry>>, count: nat, failures: map<Entry, nat>)
      requires draining && queue == [] && Unattempted(batch)
      modifies this
      ensures draining && scheduled == old(scheduled)
      ensures Unattempted(queue)
      ensures ended == old(ended) + Outcomes(Entries(batch), failures)
      ensures Arrived(arrivals, count) + Entries(queue) == Arrived(arrivals, count + |batch|)
      ensures count >= |arrivals| ==> queue == []
    {
      var i := 0;
      while i < |batch|
        invariant 0 <= i <= |batch|
        invariant draining && scheduled == old(scheduled)
        invariant Unattempted(queue)
        invariant ended == old(ended) + Outcomes(Entries(batch[..i]), failures)
        invariant Arrived(arrivals, count) + Entries(queue) == Arrived(arrivals, count + i)
        invariant count >= |arrivals| ==> queue == []
      {
        WriteItem(batch[i], arrivals, count + i, failures, count, Entries(batch[..i]), old(ended));
        EntriesSnoc(batch, i);
        i := i + 1;
      }
      assert batch[..i] == batch;
    }

    /** What was queued at the start and has arrived since is what was handled and what is queued now. */
    static ghost predicate Accounted(start: seq<Entry>, arrivals: seq<seq<Entry>>, writes: nat, handled: seq<Entry>,
                                     queue: seq<Item>) {
      start + Arrived(arrivals, writes) == handled + Entries(queue) && writes == |handled|
    }

    static lemma AccountedBatch(start: seq<Entry>, arrivals: seq<seq<Entry>>, writes: nat, handled: seq<Entry>,
                                batch: seq<Item>, queue: seq<Item>)
      requires Accounted(start, arrivals, writes, handled, batch)
      requires Arrived(arrivals, writes) + Entries(queue) == Arrived(arrivals, writes + |batch|)
      ensures Accounted(start, arrivals, writes + |batch|, handled + Entries(batch), queue)
    {
      assert start + Arrived(arrivals, writes + |batch|) == (start + Arrived(arrivals, writes)) + Entries(queue);
    }

    /**
     * One whole drain with entries arriving while it writes: it ends only on an empty queue, having handled the
     * queued and the arrived entries first in, first out, without ever scheduling a second drain.
     */
    method DrainQueue(arrivals: seq<seq<Entry>>, failures: map<Entry, nat>) returns (writes: nat)
      requires draining && Unattempted(queue)
      modifies this
      ensures queue == [] && !draining && scheduled == old(scheduled)
      ensures ended == old(ended) + Outcomes(Entries(old(queue)) + Arrived(arrivals, writes), failures)
      ensures writes == |Entries(old(queue)) + Arrived(arrivals, writes)|
    {
      writes := 0;
      ghost var handled: seq<Entry> := [];
      ghost var start := Entries(queue);
      while queue != []
        invariant draining && scheduled == old(scheduled)
        invariant Unattempted(queue)
        invariant Accounted(start, arrivals, writes, handled, queue)
        invariant ended == old(ended) + Outcomes(handled, failures)
        decreases if writes < |arrivals| then |arrivals| - writes else 0, |queue|
      {
        var batch := queue;
        queue := [];
        WriteBatch(batch, arrivals, writes, failures);
        EndedJoin(old(ended), handled, Entries(batch), failures);
        AccountedBatch(start, arrivals, writes, handled, batch, queue);
        handled := handled + Entries(batch);
        writes := writes + |batch|;
      }
      assert handled == start + Arrived(arrivals, writes);
      draining := false;
    }
  }
}
