/** The limiter's second implementation: Lua scripts over one Redis hash per key, whose TTL deletes
    it (apps/api/internal/ratelimit/redis.go). Instants here are whole seconds. */
module RedisLimiter {
  import opened Common
  import opened LoginLimiter
  import opened LimiterRuns

  const NS: nat := 1_000_000_000

  /** Script arguments, in seconds. */
  datatype Settings = Settings(base: int, maxLock: int, window: int)

  datatype Hash = Hash(failures: nat, lockedUntil: Option<int>, lastSeen: nat, expireAt: int)

  function LuaDoubled(d: int, maxLock: int, n: nat): int
    decreases n
  {
    if n == 0 then (if maxLock > 0 && d > maxLock then maxLock else d)
    else if maxLock > 0 && d >= maxLock then maxLock
    else LuaDoubled(d * 2, maxLock, n - 1)
  }

  /** What a command sees of a hash at an instant. */
  function Visible(h: Option<Hash>, now: nat): Option<Hash> {
    if h.Some? && now < h.value.expireAt then h else None
  }

  /** The script's local function bump. */
  function LuaBump(c: Settings, h: Option<Hash>, threshold: int, now: nat): Hash {
    var failures := if h.Some? then h.value.failures else 0;
    var last := if h.Some? then h.value.lastSeen else 0;
    var idle := c.window > 0 && last > 0 && now - last > c.window;
    var f := (if idle then 0 else failures) + 1;
    var locked := if idle || h.None? then None else h.value.lockedUntil;
    if f >= threshold && threshold > 0 then
      var d := LuaDoubled(c.base, c.maxLock, f - threshold);
      Hash(f, Some(now + d), now, now + (if c.window > 0 then c.window else c.maxLock) + d)
    else Hash(f, locked, now, now + if c.window > 0 then c.window else 900)
  }

  function LuaLockEnd(h: Option<Hash>): int {
    if h.Some? && h.value.lockedUntil.Some? then h.value.lockedUntil.value else 0
  }

  /** The allow script on the two hashes. */
  function LuaAllow(ip: Option<Hash>, combo: Option<Hash>, now: nat): Decision {
    var until := Max(LuaLockEnd(Visible(ip, now)), LuaLockEnd(Visible(combo, now)));
    if now < until then Decision(false, until - now) else Decision(true, 0)
  }

  class RedisKeys {
    var hashes: map<string, Hash>

    function At(key: string): Option<Hash>
      reads this
    {
      if key in hashes then Some(hashes[key]) else None
    }

    method Fail(c: Settings, key: string, threshold: int, now: nat)
      modifies this
      ensures hashes == old(hashes)[key := LuaBump(c, Visible(old(At(key)), now), threshold, now)]
    {
      var seen := key in hashes && now < hashes[key].expireAt;
      var failures := if seen then hashes[key].failures else 0;
      var last := if seen then hashes[key].lastSeen else 0;
      var locked := if seen then hashes[key].lockedUntil else None;
      if c.window > 0 && last > 0 && now - last > c.window {
        failures := 0;
        locked := None;
      }
      failures := failures + 1;
      var expireAt;
      if failures >= threshold && threshold > 0 {
        var n := failures - threshold;
        var d := c.base;
        var i := 0;
        while i < n
          invariant 0 <= i <= n
          invariant LuaDoubled(d, c.maxLock, n - i) == LuaDoubled(c.base, c.maxLock, n)
        {
          if c.maxLock > 0 && d >= c.maxLock {
            d := c.maxLock;
            break;
          }
          d := d * 2;
          i := i + 1;
        }
        if c.maxLock > 0 && d > c.maxLock { d := c.maxLock; }
        assert d == LuaDoubled(c.base, c.maxLock, n);
        locked := Some(now + d);
        expireAt := now + (if c.window > 0 then c.window else c.maxLock) + d;
      } else {
        expireAt := now + if c.window > 0 then c.window else 900;
      }
      hashes := hashes[key := Hash(failures, locked, now, expireAt)];
    }

    method Success(key: string)
      modifies this
      ensures hashes == old(hashes) - {key}
    {
      hashes := hashes - {key};
    }
  }

  // ---------- the twin theorem ----------

  /** Positive whole-second settings, the same for both implementations, that fit Go's durations. */
  predicate SameSettings(opt: Options, c: Settings) {
    0 < c.base && 0 < c.maxLock && 0 < c.window &&
    opt.lockoutBase == c.base * NS && opt.lockoutMax == c.maxLock * NS && opt.failureWindow == c.window * NS &&
    opt.lockoutBase < TWO63 && opt.lockoutMax <= TWO62
  }

  lemma {:induction false} LuaClosedForm(d: int, maxLock: int, n: nat)
    requires 0 < d && 0 < maxLock
    ensures LuaDoubled(d, maxLock, n) == Min(d * Pow2(n), maxLock)
    decreases n
  {
    if n > 0 && d >= maxLock {
      MulMonotone(d, 1, Pow2(n));
    } else if n > 0 {
      LuaClosedForm(d * 2, maxLock, n - 1);
      DoubleMore(d, n);
      assert d * 2 == 2 * d;
    }
  }

  /** Both loops compute the same lock. */
  lemma SameBackoff(opt: Options, c: Settings, n: nat)
    requires SameSettings(opt, c)
    ensures Backoff(opt, n) == LuaDoubled(c.base, c.maxLock, n) * NS
    ensures LuaDoubled(c.base, c.maxLock, n) > 0
  {
    LuaClosedForm(c.base, c.maxLock, n);
    DoubledClosedForm(opt.lockoutBase, opt.lockoutMax, n);
    assert opt.lockoutBase * Pow2(n) == (c.base * Pow2(n)) * NS;
    MulMonotone(c.base, 1, Pow2(n));
  }

  datatype KeyOp = Fail(now: nat) | Clear

  /** The hash of one key after its commands. */
  function HashAfter(c: Settings, threshold: int, ops: seq<KeyOp>): Option<Hash>
    decreases |ops|
  {
    if ops == [] then None
    else
      var h := HashAfter(c, threshold, ops[..|ops| - 1]);
      match ops[|ops| - 1]
      case Clear => None
      case Fail(now) => Some(LuaBump(c, Visible(h, now), threshold, now))
  }

  function Scale(times: seq<nat>): (r: seq<nat>)
    ensures |r| == |times| && forall i :: 0 <= i < |r| ==> r[i] == times[i] * NS
  {
    seq(|times|, i requires 0 <= i < |times| => times[i] * NS)
  }

  function TimesOf(ops: seq<KeyOp>): seq<nat>
    decreases |ops|
  {
    if ops == [] then []
    else match ops[|ops| - 1]
      case Clear => []
      case Fail(now) => TimesOf(ops[..|ops| - 1]) + [now]
  }

  /** The failure comes at the instant at which the TTL of an unlocked hash ends. */
  predicate OnTtl(c: Settings, threshold: int, times: seq<nat>, now: nat) {
    times != [] && now - times[|times| - 1] == c.window && Streak(times, c.window) < threshold
  }

  /** The hash after the n-th failure of a streak, at the instant `last`. */
  function HashFrom(c: Settings, threshold: int, n: nat, last: nat): Hash
    requires threshold > 0
  {
    if n >= threshold then
      var d := LuaDoubled(c.base, c.maxLock, n - threshold);
      Hash(n, Some(last + d), last, last + c.window + d)
    else Hash(n, None, last, last + c.window)
  }

  /** The hash that the log of failures prescribes. */
  function HashOf(c: Settings, threshold: int, times: seq<nat>): Hash
    requires times != [] && threshold > 0
  {
    HashFrom(c, threshold, Streak(times, c.window), times[|times| - 1])
  }

  /** After the next failure the hash is again the one of the log, except exactly when that failure
      comes at the instant an unlocked hash's TTL ends in the middle of a streak. */
  lemma TtlBoundaryExactly(c: Settings, threshold: int, times: seq<nat>, now: nat)
    requires 0 < c.base && 0 < c.maxLock && 0 < c.window && threshold > 0
    requires times != [] && 0 < times[|times| - 1] <= now
    ensures LuaBump(c, Visible(Some(HashOf(c, threshold, times)), now), threshold, now)
         == HashOf(c, threshold, times + [now])
      <==> !OnTtl(c, threshold, times, now)
  {
    StreakSnoc(times, now, c.window);
    BoundaryStep(c, threshold, Streak(times, c.window), times[|times| - 1], now);
  }

  lemma BoundaryStep(c: Settings, threshold: int, n: nat, last: nat, now: nat)
    requires 0 < c.base && 0 < c.maxLock && 0 < c.window && threshold > 0
    requires n > 0 && 0 < last <= now
    ensures LuaBump(c, Visible(Some(HashFrom(c, threshold, n, last)), now), threshold, now)
         == HashFrom(c, threshold, if now - last > c.window then 1 else 1 + n, now)
      <==> !(now - last == c.window && n < threshold)
  {
    if n >= threshold { LockPositive(c, n - threshold); }
  }

  lemma StreakSnoc(times: seq<nat>, now: nat, window: int)
    requires times != [] && window > 0
    ensures (times + [now])[|times|] == now
    ensures Streak(times + [now], window)
      == if now - times[|times| - 1] > window then 1 else 1 + Streak(times, window)
  {
    assert (times + [now])[..|times + [now]| - 1] == times;
  }

  lemma LockPositive(c: Settings, n: nat)
    requires 0 < c.base && 0 < c.maxLock
    ensures LuaDoubled(c.base, c.maxLock, n) > 0
  {
    LuaClosedForm(c.base, c.maxLock, n);
    MulMonotone(c.base, 1, Pow2(n));
  }

  lemma HashStep(c: Settings, threshold: int, h: Option<Hash>, times: seq<nat>, now: nat)
    requires 0 < c.base && 0 < c.maxLock && 0 < c.window && threshold > 0 && Follows(c, threshold, times, now)
    requires h == if times == [] then None else Some(HashOf(c, threshold, times))
    ensures LuaBump(c, Visible(h, now), threshold, now) == HashOf(c, threshold, times + [now])
  {
    if times != [] { TtlBoundaryExactly(c, threshold, times, now); }
  }

  lemma {:induction false} HashAgrees(c: Settings, threshold: int, ops: seq<KeyOp>)
    requires 0 < c.base && 0 < c.maxLock && 0 < c.window && threshold > 0
    requires AwayFromTtl(c, threshold, ops)
    ensures HashAfter(c, threshold, ops) ==
      if TimesOf(ops) == [] then None else Some(HashOf(c, threshold, TimesOf(ops)))
    decreases |ops|
  {
    if ops != [] && ops[|ops| - 1].Fail? {
      var earlier, now := ops[..|ops| - 1], ops[|ops| - 1].now;
      HashAgrees(c, threshold, earlier);
      HashStep(c, threshold, HashAfter(c, threshold, earlier), TimesOf(earlier), now);
    }
  }

  /** Failure instants do not decrease, and none comes at the instant an unlocked hash's TTL ends. */
  predicate AwayFromTtl(c: Settings, threshold: int, ops: seq<KeyOp>)
    decreases |ops|
  {
    ops != [] ==>
      var earlier := ops[..|ops| - 1];
      AwayFromTtl(c, threshold, earlier) && (ops[|ops| - 1].Fail? ==> Follows(c, threshold, TimesOf(earlier), ops[|ops| - 1].now))
  }

  predicate Follows(c: Settings, threshold: int, times: seq<nat>, now: nat) {
    now > 0 && (times != [] ==> 0 < times[|times| - 1] <= now) && !OnTtl(c, threshold, times, now)
  }

  lemma {:induction false} SameStreak(times: seq<nat>, window: int)
    requires window > 0
    ensures Streak(Scale(times), window * NS) == Streak(times, window)
    decreases |times|
  {
    if |times| > 1 {
      SameStreak(times[..|times| - 1], window);
      assert Scale(times)[..|times| - 1] == Scale(times[..|times| - 1]);
    }
  }

  /** Both implementations derive the same lock from the same failures. */
  lemma SameLock(opt: Options, c: Settings, threshold: int, ops: seq<KeyOp>, now: nat)
    requires SameSettings(opt, c) && threshold > 0 && AwayFromTtl(c, threshold, ops)
    ensures SameUntil(LockedBy(opt, threshold, Scale(TimesOf(ops))),
                      LuaLockEnd(Visible(HashAfter(c, threshold, ops), now)), now)
  {
    var times := TimesOf(ops);
    HashAgrees(c, threshold, ops);
    if times == [] {
      assert Scale(times) == [];
    } else {
      SameLockOfTimes(opt, c, threshold, times, now);
    }
  }

  lemma SameLockOfTimes(opt: Options, c: Settings, threshold: int, times: seq<nat>, now: nat)
    requires SameSettings(opt, c) && threshold > 0 && times != []
    ensures SameUntil(LockedBy(opt, threshold, Scale(times)),
                      LuaLockEnd(Visible(Some(HashOf(c, threshold, times)), now)), now)
  {
    var n := Streak(times, c.window);
    MemoryLock(opt, c, threshold, times);
    if n >= threshold { LockPositive(c, n - threshold); }
    LockOfHash(c, threshold, n, times[|times| - 1], now);
  }

  /** Equal as far as a caller at that instant can tell: one is in nanoseconds, the other in seconds. */
  predicate SameUntil(memory: int, redis: int, now: nat) {
    if now * NS < memory then memory == redis * NS else redis <= now
  }

  lemma LockOfHash(c: Settings, threshold: int, n: nat, last: nat, now: nat)
    requires threshold > 0 && c.window > 0
    requires n >= threshold ==> LuaDoubled(c.base, c.maxLock, n - threshold) > 0
    ensures SameUntil(NS * if n < threshold then 0 else last + LuaDoubled(c.base, c.maxLock, n - threshold),
                      LuaLockEnd(Visible(Some(HashFrom(c, threshold, n, last)), now)), now)
  {}

  lemma MemoryLock(opt: Options, c: Settings, threshold: int, times: seq<nat>)
    requires SameSettings(opt, c) && threshold > 0 && times != []
    ensures LockedBy(opt, threshold, Scale(times)) ==
      NS * if Streak(times, c.window) < threshold then 0
           else times[|times| - 1] + LuaDoubled(c.base, c.maxLock, Streak(times, c.window) - threshold)
  {
    SameStreak(times, c.window);
    if Streak(times, c.window) >= threshold {
      SameBackoff(opt, c, Streak(times, c.window) - threshold);
    }
  }

  // ---------- whole runs ----------

  /** The commands one key sees of a log whose instants are whole seconds. */
  function OpsOf(log: Log, side: Side, key: string): seq<KeyOp>
    decreases |log|
  {
    if log == [] then []
    else
      var before, last := OpsOf(log[..|log| - 1], side, key), log[|log| - 1];
      if last.op.Sweep? || KeyOf(side, last.op) != key then before
      else if last.op.Success? then before + [Clear]
      else before + [Fail(last.now / NS)]
  }

  lemma {:induction false} OpsMatchLog(log: Log, side: Side, key: string)
    requires forall i :: 0 <= i < |log| ==> log[i].now % NS == 0
    ensures FailureTimes(log, side, key) == Scale(TimesOf(OpsOf(log, side, key)))
    decreases |log|
  {
    if log != [] {
      var earlier, last := log[..|log| - 1], log[|log| - 1];
      OpsMatchLog(earlier, side, key);
      var before := OpsOf(earlier, side, key);
      if !last.op.Sweep? && KeyOf(side, last.op) == key {
        if last.op.Success? {
          TimesAfterClear(before);
        } else {
          TimesAfterFail(before, last.now / NS);
          ScaleSnoc(TimesOf(before), last.now);
        }
      }
    }
  }

  lemma TimesAfterClear(ops: seq<KeyOp>)
    ensures TimesOf(ops + [Clear]) == []
  {
    assert (ops + [Clear])[..|ops|] == ops;
  }

  lemma TimesAfterFail(ops: seq<KeyOp>, now: nat)
    ensures TimesOf(ops + [Fail(now)]) == TimesOf(ops) + [now]
  {
    assert (ops + [Fail(now)])[..|ops|] == ops;
  }

  lemma ScaleSnoc(times: seq<nat>, now: nat)
    requires now % NS == 0
    ensures Scale(times + [now / NS]) == Scale(times) + [now]
  {
    assert now == (now / NS) * NS;
  }

  /** The two limiters are interchangeable: over any run at whole seconds that has evicted nothing, with
      the same positive settings and no failure at the instant an unlocked hash's TTL ends, the
      in-memory limiter and the Lua scripts give the same answer to every Allow. */
  lemma RedisMatchesMemory(opt: Options, c: Settings, log: Log, states: seq<State>, username: string, bucket: string, now: nat)
    requires SameSettings(opt, c) && opt.maxFailuresIP > 0 && opt.maxFailuresUser > 0 && bucket != ""
    requires Run(opt, log, states) && EvictionFree(opt, log, states, |log|)
    requires Timed(log) && Clock(log, |log|) <= now * NS && forall i :: 0 <= i < |log| ==> log[i].now % NS == 0
    requires AwayFromTtl(c, opt.maxFailuresIP, OpsOf(log, Ip, bucket))
    requires AwayFromTtl(c, opt.maxFailuresUser, OpsOf(log, Combo, ComboKey(username, bucket)))
    ensures var memory := Decide(states[|log|].ip, states[|log|].combo, username, bucket, now * NS);
      var redis := LuaAllow(HashAfter(c, opt.maxFailuresIP, OpsOf(log, Ip, bucket)),
                            HashAfter(c, opt.maxFailuresUser, OpsOf(log, Combo, ComboKey(username, bucket))), now);
      memory.allowed == redis.allowed && memory.retryIn == redis.retryIn * NS
  {
    assert log[..|log|] == log;
    AllowRefinesLog(opt, log, states, |log|, username, bucket, now * NS);
    OpsMatchLog(log, Ip, bucket);
    OpsMatchLog(log, Combo, ComboKey(username, bucket));
    SameLock(opt, c, opt.maxFailuresIP, OpsOf(log, Ip, bucket), now);
    SameLock(opt, c, opt.maxFailuresUser, OpsOf(log, Combo, ComboKey(username, bucket)), now);
  }
}
