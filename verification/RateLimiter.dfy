/** The fixed-window rate limiter: the counter script on one key, its result, and what a run of checks can allow. */
module RateLimiter {
  import opened Common

  /** A stored counter; a key without expiry would never go away by itself. */
  datatype Counter = Counter(count: int, expiresAt: Option<int>)

  datatype RateLimitResult = RateLimitResult(allowed: bool, remaining: int, retryAfterSeconds: int)

  /** One call of `check`. At the very instant of expiry the store may still show the key or not: `goneAtTie`. */
  datatype Check = Check(now: int, goneAtTie: bool)

  predicate Gone(c: Counter, k: Check) {
    c.expiresAt.Some? && (k.now > c.expiresAt.value || (k.now == c.expiresAt.value && k.goneAtTie))
  }

  /** The key as the script finds it. */
  function Visible(stored: Option<Counter>, k: Check): Option<Counter> {
    if stored.Some? && Gone(stored.value, k) then None else stored
  }

  /** INCR, then PEXPIRE for a new key or one found without an expiry. */
  function Counted(stored: Option<Counter>, k: Check, windowMs: int): Counter {
    var v := Visible(stored, k);
    var count := (if v.Some? then v.value.count else 0) + 1;
    if v.None? || count == 1 || v.value.expiresAt.None? then Counter(count, Some(k.now + windowMs))
    else Counter(count, v.value.expiresAt)
  }

  function CeilSeconds(ms: int): int {
    if ms % 1000 == 0 then ms / 1000 else ms / 1000 + 1
  }

  function ResultOf(c: Counter, k: Check, limit: int): RateLimitResult
    requires c.expiresAt.Some?
  {
    var allowed := c.count <= limit;
    RateLimitResult(allowed,
                    if allowed && limit - c.count > 0 then limit - c.count else 0,
                    CeilSeconds(c.expiresAt.value - k.now))
  }

  class RedisRateLimiter {
    var keys: map<string, Counter>

    constructor ()
      ensures keys == map[]
    {
      keys := map[];
    }

    /** `check`: the script's commands in order, then the result arithmetic. */
    method CheckKey(key: string, limit: int, windowMs: int, k: Check) returns (r: RateLimitResult)
      modifies this
      ensures var stored := if key in old(keys) then Some(old(keys)[key]) else None;
              && keys == old(keys)[key := Counted(stored, k, windowMs)]
              && r == ResultOf(Counted(stored, k, windowMs), k, limit)
      ensures key in keys && (r.allowed <==> keys[key].count <= limit)
      ensures r.remaining == if keys[key].count <= limit then limit - keys[key].count else 0
      ensures forall other :: other != key ==> (other in keys <==> other in old(keys))
                                               && (other in keys ==> keys[other] == old(keys)[other])
    {
      ghost var stored := if key in keys then Some(keys[key]) else None;
      if key in keys && Gone(keys[key], k) {
        keys := keys - {key};
      }
      if key !in keys {
        keys := keys[key := Counter(0, None)];
      }
      keys := keys[key := keys[key].(count := keys[key].count + 1)];
      var current := keys[key].count;
      if current == 1 {
        keys := keys[key := keys[key].(expiresAt := Some(k.now + windowMs))];
      }
      var ttl := 0;
      if keys[key].expiresAt.None? {
        keys := keys[key := keys[key].(expiresAt := Some(k.now + windowMs))];
        ttl := windowMs;
      } else {
        ttl := keys[key].expiresAt.value - k.now;
      }
      assert keys == old(keys)[key := Counted(stored, k, windowMs)];
      var allowed := current <= limit;
      r := RateLimitResult(allowed, if allowed then Max(limit - current, 0) else 0, CeilSeconds(ttl));
    }

    method Reset(key: string)
      modifies this
      ensures keys == old(keys) - {key}
    {
      keys := keys - {key};
    }
  }

  function Max(a: int, b: int): int {
    if a < b then b else a
  }

  /** One call on the limiter, whichever limit and window its caller uses. */
  datatype Op = CheckOp(key: string, windowMs: int, check: Check) | ResetOp(key: string)

  function KeyIn(keys: map<string, Counter>, key: string): Option<Counter> {
    if key in keys then Some(keys[key]) else None
  }

  /** The store after a sequence of calls. */
  function AfterOps(keys: map<string, Counter>, ops: seq<Op>): map<string, Counter> {
    if ops == [] then keys
    else
      var before := AfterOps(keys, ops[..|ops| - 1]);
      match ops[|ops| - 1]
      case CheckOp(key, windowMs, k) => before[key := Counted(KeyIn(before, key), k, windowMs)]
      case ResetOp(key) => before - {key}
  }

  /**
   * Over any sequence of checks and resets, also on a store that held keys without expiry: a key that was checked
   * since the start has an expiry, so none that the limiter made stays for ever.
   */
  lemma {:induction false} KeysExpire(keys: map<string, Counter>, ops: seq<Op>, key: string)
    requires key in AfterOps(keys, ops)
    ensures AfterOps(keys, ops)[key].expiresAt.Some? || (key in keys && AfterOps(keys, ops)[key] == keys[key])
    ensures (exists i :: 0 <= i < |ops| && ops[i].CheckOp? && ops[i].key == key)
            ==> AfterOps(keys, ops)[key].expiresAt.Some?
  {
    if ops != [] {
      var init, last := ops[..|ops| - 1], ops[|ops| - 1];
      if last.key != key {
        KeysExpire(keys, init, key);
        if exists i :: 0 <= i < |ops| && ops[i].CheckOp? && ops[i].key == key {
          var i :| 0 <= i < |ops| && ops[i].CheckOp? && ops[i].key == key;
          assert init[i] == ops[i];
        }
      }
    }
  }

  /** The wait in seconds is the remaining time to expiry rounded up. */
  lemma RetryAfterCovers(c: Counter, k: Check, limit: int)
    requires c.expiresAt.Some?
    ensures var r := ResultOf(c, k, limit); var ttl := c.expiresAt.value - k.now;
            1000 * (r.retryAfterSeconds - 1) < ttl <= 1000 * r.retryAfterSeconds
  {}

  // ---- runs of checks on one key ----

  datatype Logged = Logged(time: int, allowed: bool)

  ghost predicate Clocked(ks: seq<Check>) {
    forall i, j :: 0 <= i < j < |ks| ==> ks[i].now <= ks[j].now
  }

  /** The stored key after a run that starts without one. */
  function Stored(ks: seq<Check>, windowMs: int): Option<Counter> {
    if ks == [] then None
    else Some(Counted(Stored(ks[..|ks| - 1], windowMs), ks[|ks| - 1], windowMs))
  }

  function Log(ks: seq<Check>, limit: int, windowMs: int): seq<Logged> {
    if ks == [] then []
    else
      var c := Counted(Stored(ks[..|ks| - 1], windowMs), ks[|ks| - 1], windowMs);
      Log(ks[..|ks| - 1], limit, windowMs) + [Logged(ks[|ks| - 1].now, c.count <= limit)]
  }

  /** Allowed requests at times in [a, a + windowMs). */
  function AllowedIn(log: seq<Logged>, a: int, windowMs: int): nat {
    if log == [] then 0
    else
      var last := log[|log| - 1];
      AllowedIn(log[..|log| - 1], a, windowMs) + (if last.allowed && a <= last.time < a + windowMs then 1 else 0)
  }

  function Min(a: int, b: int): int {
    if a < b then a else b
  }

  /** The start of the window the stored key belongs to. */
  function WindowStart(c: Counter, windowMs: int): int
    requires c.expiresAt.Some?
  {
    c.expiresAt.value - windowMs
  }

  /** What intervals can hold, by where they begin relative to the current window. */
  ghost predicate Bounded(log: seq<Logged>, c: Counter, a: int, limit: int, windowMs: int)
    requires c.expiresAt.Some?
  {
    var s := WindowStart(c, windowMs);
    var n := AllowedIn(log, a, windowMs);
    if s < a then n <= Min(c.count, limit) - 1
    else if s < a + windowMs then n <= limit - 1 + Min(c.count, limit)
    else n <= 2 * limit - 1
  }

  ghost predicate RunOk(ks: seq<Check>, limit: int, windowMs: int) {
    ks != [] ==>
      && var c := Stored(ks, windowMs).value;
      && c.expiresAt.Some? && c.count >= 1
      && WindowStart(c, windowMs) <= ks[|ks| - 1].now
      && (forall a :: ks[|ks| - 1].now < a ==> AllowedIn(Log(ks, limit, windowMs), a, windowMs) == 0)
      && (forall a :: Bounded(Log(ks, limit, windowMs), c, a, limit, windowMs))
  }

  lemma AllowedSnoc(log: seq<Logged>, e: Logged, a: int, windowMs: int)
    ensures AllowedIn(log + [e], a, windowMs)
            == AllowedIn(log, a, windowMs) + (if e.allowed && a <= e.time < a + windowMs then 1 else 0)
  {
    assert (log + [e])[..|log|] == log;
  }

  lemma {:induction false} RunInv(ks: seq<Check>, limit: int, windowMs: int)
    requires limit >= 1 && windowMs >= 1 && Clocked(ks)
    ensures RunOk(ks, limit, windowMs)
  {
    if ks != [] {
      var init := ks[..|ks| - 1];
      var k := ks[|ks| - 1];
      RunInv(init, limit, windowMs);
      var log0 := Log(init, limit, windowMs);
      var c := Stored(ks, windowMs).value;
      var e := Logged(k.now, c.count <= limit);
      assert Log(ks, limit, windowMs) == log0 + [e];
      forall a
        ensures k.now < a ==> AllowedIn(log0 + [e], a, windowMs) == 0
        ensures Bounded(log0 + [e], c, a, limit, windowMs)
      {
        AllowedSnoc(log0, e, a, windowMs);
        if init != [] {
          assert init[|init| - 1].now <= k.now;
          assert Bounded(log0, Stored(init, windowMs).value, a, limit, windowMs);
        }
      }
    }
  }

  /**
   * Any half-open interval of one window length holds fewer than 2 * limit allowed requests: if it reaches into
   * a second window it has missed the first request of the window before.
   */
  lemma AtMostTwiceLimit(ks: seq<Check>, limit: int, windowMs: int, a: int)
    requires windowMs >= 1 && Clocked(ks)
    ensures AllowedIn(Log(ks, limit, windowMs), a, windowMs) <= Max(2 * limit - 1, 0)
  {
    if limit >= 1 {
      RunInv(ks, limit, windowMs);
      if ks != [] {
        assert Bounded(Log(ks, limit, windowMs), Stored(ks, windowMs).value, a, limit, windowMs);
      }
    } else {
      NoneAllowed(ks, limit, windowMs, a);
    }
  }

  lemma CountsPositive(ks: seq<Check>, windowMs: int)
    ensures ks != [] ==> Stored(ks, windowMs).value.count >= 1
  {
    if ks != [] {
      CountsPositive(ks[..|ks| - 1], windowMs);
    }
  }

  lemma {:induction false} NoneAllowed(ks: seq<Check>, limit: int, windowMs: int, a: int)
    requires limit < 1
    ensures AllowedIn(Log(ks, limit, windowMs), a, windowMs) == 0
  {
    if ks != [] {
      var init := ks[..|ks| - 1];
      NoneAllowed(init, limit, windowMs, a);
      CountsPositive(ks, windowMs);
      var c := Stored(ks, windowMs).value;
      AllowedSnoc(Log(init, limit, windowMs), Logged(ks[|ks| - 1].now, c.count <= limit), a, windowMs);
    }
  }

  // ---- the current window ----

  /** Allowed requests of the window that the last check of the run belongs to. */
  function AllowedInWindow(ks: seq<Check>, limit: int, windowMs: int): nat
    requires ks != []
    decreases |ks|
  {
    var init := ks[..|ks| - 1];
    var allowed := if Stored(ks, windowMs).value.count <= limit then 1 else 0;
    if Visible(Stored(init, windowMs), ks[|ks| - 1]).None? || init == [] then allowed
    else AllowedInWindow(init, limit, windowMs) + allowed
  }

  lemma {:induction false} WindowCount(ks: seq<Check>, limit: int, windowMs: int)
    requires ks != []
    ensures AllowedInWindow(ks, limit, windowMs) == Max(Min(Stored(ks, windowMs).value.count, limit), 0)
    ensures Stored(ks, windowMs).value.count >= 1 && Stored(ks, windowMs).value.expiresAt.Some?
    decreases |ks|
  {
    var init := ks[..|ks| - 1];
    if init != [] {
      WindowCount(init, limit, windowMs);
    }
  }

  /** A request is denied exactly if the limit was used up in its window, and `remaining` is what is left of it. */
  lemma DeniedIffUsedUp(ks: seq<Check>, k: Check, limit: int, windowMs: int)
    requires limit >= 0
    ensures var c := Counted(Stored(ks, windowMs), k, windowMs);
            var newWindow := Visible(Stored(ks, windowMs), k).None?;
            var used := if newWindow || ks == [] then 0 else AllowedInWindow(ks, limit, windowMs);
            && (!ResultOf(c, k, limit).allowed <==> used == limit)
            && ResultOf(c, k, limit).remaining == (if used == limit then 0 else limit - used - 1)
  {
    if ks != [] {
      WindowCount(ks, limit, windowMs);
    }
  }

  // ---- the bound is attained ----

  function Repeat(now: int, n: nat): seq<Check> {
    if n == 0 then [] else Repeat(now, n - 1) + [Check(now, false)]
  }

  /**
   * One request opens a window; the rest of the limit follows just before its end, and a full limit just after it.
   * At no request is the key at the very instant of its expiry.
   */
  function Burst(limit: nat, windowMs: int): seq<Check>
    requires limit >= 1
  {
    [Check(0, false)] + Repeat(windowMs - 1, limit - 1) + Repeat(windowMs + 1, limit)
  }

  /** After `ks` the key holds `c` counts until `x`, and `m` requests from `a` on were allowed. */
  ghost predicate Shows(ks: seq<Check>, c: int, x: int, m: nat, limit: int, windowMs: int, a: int) {
    Stored(ks, windowMs) == Some(Counter(c, Some(x))) && AllowedIn(Log(ks, limit, windowMs), a, windowMs) == m
  }

  lemma OneMore(ks: seq<Check>, now: int, c: int, x: int, m: nat, limit: int, windowMs: int, a: int)
    requires Shows(ks, c, x, m, limit, windowMs, a)
    requires 1 <= c < limit && now < x && a <= now < a + windowMs
    ensures Shows(ks + [Check(now, false)], c + 1, x, m + 1, limit, windowMs, a)
  {
    LogSnoc(ks, Check(now, false), limit, windowMs, a);
  }

  lemma Opens(ks: seq<Check>, now: int, m: nat, limit: int, windowMs: int, a: int)
    requires ks == [] || (Stored(ks, windowMs).value.expiresAt.Some?
        && Stored(ks, windowMs).value.expiresAt.value < now)
    requires AllowedIn(Log(ks, limit, windowMs), a, windowMs) == m && limit >= 1
    ensures Shows(ks + [Check(now, false)], 1, now + windowMs, m + (if a <= now < a + windowMs then 1 else 0), limit,
        windowMs, a)
  {
    LogSnoc(ks, Check(now, false), limit, windowMs, a);
  }

  lemma {:induction false} RepeatInWindow(ks: seq<Check>, now: int, n: nat, c: int, x: int, m: nat, limit: int,
                                          windowMs: int, a: int, all: seq<Check>)
    requires Shows(ks, c, x, m, limit, windowMs, a) && all == ks + Repeat(now, n)
    requires 1 <= c && c + n <= limit && now < x && a <= now < a + windowMs
    ensures Shows(all, c + n, x, m + n, limit, windowMs, a)
  {
    if n == 0 {
      assert all == ks;
    } else {
      var init := ks + Repeat(now, n - 1);
      assert all == init + [Check(now, false)];
      RepeatInWindow(ks, now, n - 1, c, x, m, limit, windowMs, a, init);
      OneMore(init, now, c + n - 1, x, m + n - 1, limit, windowMs, a);
    }
  }

  lemma LogSnoc(ks: seq<Check>, k: Check, limit: int, windowMs: int, a: int)
    ensures var c := Counted(Stored(ks, windowMs), k, windowMs);
            && Stored(ks + [k], windowMs) == Some(c)
            && AllowedIn(Log(ks + [k], limit, windowMs), a, windowMs)
               == AllowedIn(Log(ks, limit, windowMs), a, windowMs)
                  + (if c.count <= limit && a <= k.now < a + windowMs then 1 else 0)
  {
    assert (ks + [k])[..|ks|] == ks;
    AllowedSnoc(Log(ks, limit, windowMs), Logged(k.now, Counted(Stored(ks, windowMs), k, windowMs).count <= limit),
        a, windowMs);
  }

  lemma FirstWindow(l: nat, w: int)
    requires l >= 1 && w >= 2
    ensures Shows([Check(0, false)] + Repeat(w - 1, l - 1), l, w, l - 1, l, w, w - 1)
  {
    var none: seq<Check> := [];
    Opens(none, 0, 0, l, w, w - 1);
    assert none + [Check(0, false)] == [Check(0, false)];
    RepeatInWindow([Check(0, false)], w - 1, l - 1, 1, w, 0, l, w, w - 1, [Check(0, false)] + Repeat(w - 1, l - 1));
  }

  lemma SecondWindow(first: seq<Check>, l: nat, w: int)
    requires l >= 1 && w >= 3 && Shows(first, l, w, l - 1, l, w, w - 1)
    ensures Shows(first + Repeat(w + 1, l), l, 2 * w + 1, 2 * l - 1, l, w, w - 1)
  {
    RepeatHead(w + 1, l);
    var next := first + [Check(w + 1, false)];
    var all := first + Repeat(w + 1, l);
    assert all == next + Repeat(w + 1, l - 1);
    Opens(first, w + 1, l - 1, l, w, w - 1);
    RepeatInWindow(next, w + 1, l - 1, 1, 2 * w + 1, l, l, w, w - 1, all);
  }

  /** 2 * limit - 1 allowed requests within one window length do occur. */
  lemma BurstAttains(limit: nat, windowMs: int)
    requires limit >= 1 && windowMs >= 3
    ensures AllowedIn(Log(Burst(limit, windowMs), limit, windowMs), windowMs - 1, windowMs) == 2 * limit - 1
  {
    FirstWindow(limit, windowMs);
    SecondWindow([Check(0, false)] + Repeat(windowMs - 1, limit - 1), limit, windowMs);
  }

  lemma RepeatHead(now: int, n: nat)
    requires n >= 1
    ensures Repeat(now, n) == [Check(now, false)] + Repeat(now, n - 1)
  {
    if n > 1 {
      RepeatHead(now, n - 1);
      assert Repeat(now, n) == [Check(now, false)] + (Repeat(now, n - 2) + [Check(now, false)]);
    }
  }
}
