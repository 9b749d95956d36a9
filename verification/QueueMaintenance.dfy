/** Queue retention: trimming completed jobs in batches and cleaning out expired failed jobs. */
module QueueMaintenance {
  type JobId = nat
  datatype FailedJob = FailedJob(id: JobId, finishedAt: int)
  datatype Cleanup = BadBatchSize | Cleaned(completedRemoved: nat, failedRemoved: nat)

  function Excess(n: nat, retained: int): nat {
    if n - retained > 0 then n - retained else 0
  }

  /** Completions that arrive after each of the first `rounds` batches. */
  function Arrived(arrivals: seq<seq<JobId>>, rounds: nat): seq<JobId> {
    if rounds == 0 then []
    else Arrived(arrivals, rounds - 1) + (if rounds - 1 < |arrivals| then arrivals[rounds - 1] else [])
  }

  predicate Expired(j: FailedJob, graceMs: int, now: int) {
    j.finishedAt <= now - graceMs
  }

  /** The failed jobs still within the retention age, in order. */
  function Unexpired(jobs: seq<FailedJob>, graceMs: int, now: int): seq<FailedJob> {
    if jobs == [] then []
    else if Expired(jobs[0], graceMs, now) then Unexpired(jobs[1..], graceMs, now)
    else [jobs[0]] + Unexpired(jobs[1..], graceMs, now)
  }

  /** Without its first `limit` expired jobs. */
  function CleanedOnce(jobs: seq<FailedJob>, graceMs: int, now: int, limit: nat): seq<FailedJob> {
    if jobs == [] || limit == 0 then jobs
    else if Expired(jobs[0], graceMs, now) then CleanedOnce(jobs[1..], graceMs, now, limit - 1)
    else [jobs[0]] + CleanedOnce(jobs[1..], graceMs, now, limit)
  }

  lemma {:induction false} CleaningStep(jobs: seq<FailedJob>, graceMs: int, now: int, limit: nat)
    ensures var after := CleanedOnce(jobs, graceMs, now, limit);
            && Unexpired(after, graceMs, now) == Unexpired(jobs, graceMs, now)
            && |jobs| - limit <= |after| <= |jobs|
            && (|jobs| - |after| < limit ==> after == Unexpired(jobs, graceMs, now))
  {
    if jobs != [] && limit > 0 {
      if Expired(jobs[0], graceMs, now) {
        CleaningStep(jobs[1..], graceMs, now, limit - 1);
      } else {
        CleaningStep(jobs[1..], graceMs, now, limit);
        var rest := CleanedOnce(jobs[1..], graceMs, now, limit);
        assert ([jobs[0]] + rest)[1..] == rest;
      }
    }
  }

  lemma {:induction false} UnexpiredExactly(jobs: seq<FailedJob>, graceMs: int, now: int, j: FailedJob)
    ensures j in Unexpired(jobs, graceMs, now) <==> j in jobs && j.finishedAt + graceMs > now
  {
    if jobs != [] {
      UnexpiredExactly(jobs[1..], graceMs, now, j);
      assert j in jobs <==> j == jobs[0] || j in jobs[1..];
    }
  }

  /** A round takes the oldest: all expired jobs up to some point, and none beyond it. */
  lemma {:induction false} OldestGoFirst(jobs: seq<FailedJob>, graceMs: int, now: int, limit: nat) returns (m: nat)
    ensures m <= |jobs|
    ensures CleanedOnce(jobs, graceMs, now, limit) == Unexpired(jobs[..m], graceMs, now) + jobs[m..]
  {
    if jobs == [] || limit == 0 {
      m := 0;
      assert Unexpired(jobs[..0], graceMs, now) == [];
    } else {
      var n := OldestGoFirst(jobs[1..], graceMs, now, if Expired(jobs[0], graceMs, now) then limit - 1 else limit);
      m := n + 1;
      assert jobs[..m][1..] == jobs[1..][..n] && jobs[1..][n..] == jobs[m..];
    }
  }

  class JobQueue {
    var completed: seq<JobId>   // oldest first
    var failed: seq<FailedJob>  // oldest first

    constructor (completed: seq<JobId>, failed: seq<FailedJob>)
      ensures this.completed == completed && this.failed == failed
    {
      this.completed, this.failed := completed, failed;
    }

    /** `getJobs('completed', 0, limit - 1, true)`. */
    method OldestCompleted(limit: nat) returns (jobs: seq<JobId>)
      ensures jobs == completed[..if limit < |completed| then limit else |completed|]
    {
      jobs := completed[..if limit < |completed| then limit else |completed|];
    }

    /**
     * Trimming in batches removes exactly the excess over the retained count, oldest first, whatever the batch
     * size, and also when further jobs complete after each batch: those are kept.
     */
    method TrimCompletedJobs(retained: nat, batchSize: nat, arrivals: seq<seq<JobId>>)
      returns (removed: nat, rounds: nat)
      requires batchSize >= 1
      modifies this`completed
      ensures removed == if |old(completed)| > retained then |old(completed)| - retained else 0
      ensures completed == old(completed)[removed..] + Arrived(arrivals, rounds)
      ensures rounds <= removed
    {
      var remaining := Excess(|completed|, retained);
      removed, rounds := 0, 0;
      while remaining > 0
        invariant remaining >= 0
        invariant removed + remaining == Excess(|old(completed)|, retained) <= |old(completed)|
        invariant completed == old(completed)[removed..] + Arrived(arrivals, rounds)
        invariant rounds <= removed
        decreases remaining
      {
        var limit := if remaining < batchSize then remaining else batchSize;
        var late := if rounds < |arrivals| then arrivals[rounds] else [];
        var n := RemoveBatch(limit, late);
        if n == 0 { break; }
        TrimRound(old(completed), removed, n, Arrived(arrivals, rounds), late);
        removed := removed + n;
        remaining := remaining - n;
        rounds := rounds + 1;
        if n < limit { break; }
      }
    }

    /** Fetch a batch and remove its jobs; `late` completes before the next fetch. */
    method RemoveBatch(limit: nat, late: seq<JobId>) returns (n: nat)
      modifies this`completed
      ensures n == if limit < |old(completed)| then limit else |old(completed)|
      ensures completed == old(completed)[n..] + late
    {
      var jobs := OldestCompleted(limit);
      n := |jobs|;
      completed := completed[n..] + late;
    }

    static lemma TrimRound(jobs: seq<JobId>, removed: nat, n: nat, sofar: seq<JobId>, late: seq<JobId>)
      requires removed + n <= |jobs|
      ensures (jobs[removed..] + sofar)[n..] + late == jobs[removed + n..] + (sofar + late)
    {}

    /** `clean(grace, limit, 'failed')`: at most `limit` expired jobs, oldest first. */
    method Clean(graceMs: int, limit: nat, now: int) returns (count: nat)
      modifies this`failed
      ensures failed == CleanedOnce(old(failed), graceMs, now, limit)
      ensures count == |old(failed)| - |failed|
    {
      var kept: seq<FailedJob> := [];
      var i := 0;
      count := 0;
      while i < |failed| && count < limit
        invariant 0 <= i <= |failed| && count <= limit && count == i - |kept|
        invariant CleanedOnce(failed, graceMs, now, limit)
                  == kept + CleanedOnce(failed[i..], graceMs, now, limit - count)
      {
        assert failed[i..][1..] == failed[i + 1..];
        if Expired(failed[i], graceMs, now) {
          count := count + 1;
        } else {
          kept := kept + [failed[i]];
        }
        i := i + 1;
      }
      failed := kept + failed[i..];
    }

    /** The cleaning loop ends and leaves exactly the failed jobs within the age limit. */
    method RemoveExpiredFailedJobs(failedAgeSeconds: int, batchSize: nat, now: int) returns (removed: nat)
      requires batchSize >= 1
      modifies this`failed
      ensures failed == Unexpired(old(failed), failedAgeSeconds * 1000, now)
      ensures removed == |old(failed)| - |failed|
    {
      var graceMs := failedAgeSeconds * 1000;
      removed := 0;
      var more := true;
      while more
        invariant Unexpired(failed, graceMs, now) == Unexpired(old(failed), graceMs, now)
        invariant removed == |old(failed)| - |failed|
        invariant !more ==> failed == Unexpired(old(failed), graceMs, now)
        decreases more, |failed|
      {
        CleaningStep(failed, graceMs, now, batchSize);
        var n := Clean(graceMs, batchSize, now);
        removed := removed + n;
        if n < batchSize {
          more := false;
        }
      }
    }

    /** Both parts, with further jobs completing after each batch of the first. */
    method CleanupQueueJobs(retained: nat, failedAgeSeconds: int, batchSize: int, now: int, arrivals: seq<seq<JobId>>)
      returns (r: Cleanup, rounds: nat)
      modifies this
      ensures r.BadBatchSize? <==> batchSize <= 0
      ensures r.BadBatchSize? ==> completed == old(completed) && failed == old(failed)
      ensures r.Cleaned? ==>
                && r.completedRemoved == (if |old(completed)| > retained then |old(completed)| - retained else 0)
                && completed == old(completed)[r.completedRemoved..] + Arrived(arrivals, rounds)
                && failed == Unexpired(old(failed), failedAgeSeconds * 1000, now)
                && r.failedRemoved == |old(failed)| - |failed|
    {
      if batchSize <= 0 {
        return BadBatchSize, 0;
      }
      var c: nat;
      c, rounds := TrimCompletedJobs(retained, batchSize, arrivals);
      var f := RemoveExpiredFailedJobs(failedAgeSeconds, batchSize, now);
      r := Cleaned(c, f);
    }
  }
}
