/** Locks over whole runs: the cap, when a lock can be shortened, and what one address bucket can do to
    another (apps/api/internal/ratelimit/login.go). */
module LimiterLocks {
  import opened Common
  import opened LoginLimiter
  import opened LimiterRuns

  lemma StepKeepsCap(opt: Options, p: State, it: Item, s: State)
    requires ValidOptions(opt) && Step(opt, p, it, s) && WithinCap(opt, p.ip) && WithinCap(opt, p.combo)
    ensures WithinCap(opt, s.ip) && WithinCap(opt, s.combo)
  {
    match it.op
    case Failure(u, b) =>
      BumpKeepsCap(opt, p.ip, b, opt.maxFailuresIP, it.now, s.ip);
      BumpKeepsCap(opt, p.combo, ComboKey(u, b), opt.maxFailuresUser, it.now, s.combo);
    case Success(u, b) =>
      Subset(s.ip.Keys, p.ip.Keys);
      Subset(s.combo.Keys, p.combo.Keys);
    case Sweep =>
  }

  /** Over every run neither table outgrows MaxEntries. */
  lemma {:induction false} CapOverRuns(opt: Options, log: Log, states: seq<State>, n: nat)
    requires ValidOptions(opt) && Run(opt, log, states) && n <= |log|
    ensures WithinCap(opt, states[n].ip) && WithinCap(opt, states[n].combo)
  {
    if n > 0 {
      CapOverRuns(opt, log, states, n - 1);
      RunStep(opt, log, states, n - 1);
      StepKeepsCap(opt, states[n - 1], log[n - 1], states[n]);
    }
  }

  // ---------- entries ----------

  /** An entry as the limiter makes it: its lock is that of its failures, counted from the last one. */
  predicate Good(opt: Options, threshold: int, e: Entry)
    requires ValidOptions(opt)
  {
    threshold > 0 && e.failures > 0 &&
    e.lockedUntil == if e.failures >= threshold then e.lastSeen + Backoff(opt, e.failures - threshold) else 0
  }

  ghost predicate AllGood(opt: Options, threshold: int, m: Table, now: nat)
    requires ValidOptions(opt)
  {
    forall k :: k in m ==> k != "" && Good(opt, threshold, m[k]) && 0 < m[k].lastSeen <= now
  }

  lemma BumpedIsGood(opt: Options, threshold: int, e: Entry, now: nat)
    requires ValidOptions(opt) && threshold > 0
    requires e == FRESH || (Good(opt, threshold, e) && 0 < e.lastSeen <= now)
    ensures Good(opt, threshold, BumpEntry(opt, e, threshold, now))
  {}

  lemma BumpKeepsGood(opt: Options, m: Table, key: string, threshold: int, before: nat, now: nat, r: Table)
    requires ValidOptions(opt) && AllGood(opt, threshold, m, before) && before <= now && 0 < now
    requires Bumped(opt, m, key, threshold, now, r)
    ensures AllGood(opt, threshold, r, now)
  {
    BumpTouchesOthersOnlyByEviction(opt, m, key, threshold, now, r);
    if key in r && threshold > 0 && key != "" {
      BumpedIsGood(opt, threshold, if key in m then m[key] else FRESH, now);
    }
  }

  lemma StepKeepsGood(opt: Options, p: State, it: Item, s: State, side: Side, before: nat)
    requires ValidOptions(opt) && Step(opt, p, it, s) && before <= it.now && 0 < it.now
    requires AllGood(opt, Threshold(opt, side), TableOf(p, side), before)
    ensures AllGood(opt, Threshold(opt, side), TableOf(s, side), it.now)
  {
    if it.op.Failure? {
      BumpKeepsGood(opt, TableOf(p, side), KeyOf(side, it.op), Threshold(opt, side), before, it.now, TableOf(s, side));
    }
  }

  lemma NextIsGood(opt: Options, log: Log, n: nat, p: State, s: State, side: Side)
    requires ValidOptions(opt) && Timed(log) && 0 < n <= |log| && Step(opt, p, log[n - 1], s)
    requires AllGood(opt, Threshold(opt, side), TableOf(p, side), Clock(log, n - 1))
    ensures AllGood(opt, Threshold(opt, side), TableOf(s, side), Clock(log, n))
  {
    ClockAdvances(log, n - 1);
    StepKeepsGood(opt, p, log[n - 1], s, side, Clock(log, n - 1));
  }

  lemma NothingIsGood(opt: Options, side: Side)
    requires ValidOptions(opt)
    ensures AllGood(opt, Threshold(opt, side), TableOf(EMPTY, side), 0)
  {}

  /** Every entry of every state of every run is of that form. */
  lemma {:induction false} EntriesAreGood(opt: Options, log: Log, states: seq<State>, n: nat, side: Side)
    requires ValidOptions(opt) && Run(opt, log, states) && Timed(log) && n <= |log|
    ensures AllGood(opt, Threshold(opt, side), TableOf(states[n], side), Clock(log, n))
  {
    if n == 0 {
      NothingIsGood(opt, side);
    } else {
      EntriesAreGood(opt, log, states, n - 1, side);
      RunStep(opt, log, states, n - 1);
      NextIsGood(opt, log, n, states[n - 1], states[n], side);
    }
  }

  // ---------- can a lock be shortened ----------

  /** The failure leaves the key with an earlier end of its active lock. */
  predicate Shortens(s: State, it: Item, s': State, side: Side, key: string) {
    && it.op.Failure? && key in TableOf(s, side) && key in TableOf(s', side)
    && Locked(TableOf(s, side)[key], it.now)
    && TableOf(s', side)[key].lockedUntil < TableOf(s, side)[key].lockedUntil
  }

  lemma BumpShortensExactly(opt: Options, threshold: int, e: Entry, now: nat)
    requires ValidOptions(opt) && 0 < opt.lockoutMax <= TWO62
    requires Good(opt, threshold, e) && 0 < e.lastSeen <= now && Locked(e, now)
    ensures BumpEntry(opt, e, threshold, now).lockedUntil < e.lockedUntil <==>
      opt.failureWindow > 0 && now - e.lastSeen > opt.failureWindow
      && !(threshold == 1 && now + Backoff(opt, 0) >= e.lockedUntil)
  {
    BackoffMonotone(opt, e.failures - threshold, e.failures + 1 - threshold);
  }

  /** In every run, a failure shortens an active lock exactly when it is a failure of that key, the
      streak has lapsed, and the failure by itself does not lock for at least as long. */
  lemma LockShortenedExactly(opt: Options, log: Log, states: seq<State>, i: nat, side: Side, key: string)
    requires ValidOptions(opt) && 0 < opt.lockoutMax <= TWO62
    requires Run(opt, log, states) && Timed(log) && i < |log| && log[i].op.Failure?
    requires key in TableOf(states[i], side) && Locked(TableOf(states[i], side)[key], log[i].now)
    ensures var e, now := TableOf(states[i], side)[key], log[i].now;
      Shortens(states[i], log[i], states[i + 1], side, key) <==>
        && KeyOf(side, log[i].op) == key && opt.failureWindow > 0 && now - e.lastSeen > opt.failureWindow
        && !(Threshold(opt, side) == 1 && now + Backoff(opt, 0) >= e.lockedUntil)
  {
    EntriesAreGood(opt, log, states, i, side);
    RunStep(opt, log, states, i);
    var e := TableOf(states[i], side)[key];
    assert key != "" && Good(opt, Threshold(opt, side), e) && 0 < e.lastSeen <= Clock(log, i) <= log[i].now;
    FailureOfKey(opt, TableOf(states[i], side), KeyOf(side, log[i].op), key, Threshold(opt, side), log[i].now, TableOf(states[i + 1], side));
    BumpShortensExactly(opt, Threshold(opt, side), e, log[i].now);
  }

  /** What a failure does to the entry of a key that has one. */
  lemma FailureOfKey(opt: Options, m: Table, failing: string, key: string, threshold: int, now: nat, r: Table)
    requires ValidOptions(opt) && Bumped(opt, m, failing, threshold, now, r) && key in m && key != "" && threshold > 0
    ensures if failing == key then key in r && r[key] == BumpEntry(opt, m[key], threshold, now)
      else key in r ==> r[key] == m[key]
  {
    BumpTouchesOthersOnlyByEviction(opt, m, failing, threshold, now, r);
  }

  /** With LockoutMax within the window no run ever shortens an active lock: after a failure, of
      whatever key, the entry has at least its old lock, unless it had to make room. */
  lemma LockNeverShortened(opt: Options, log: Log, states: seq<State>, i: nat, side: Side, key: string)
    requires ValidOptions(opt) && 0 < opt.lockoutMax <= TWO62 && opt.lockoutMax <= opt.failureWindow
    requires Run(opt, log, states) && Timed(log) && i < |log| && log[i].op.Failure?
    requires key in TableOf(states[i], side) && Locked(TableOf(states[i], side)[key], log[i].now)
    ensures key in TableOf(states[i + 1], side) ==>
      TableOf(states[i + 1], side)[key].lockedUntil >= TableOf(states[i], side)[key].lockedUntil
    ensures key !in TableOf(states[i + 1], side) ==> !NoEviction(opt, states[i], log[i])
  {
    var e := TableOf(states[i], side)[key];
    EntriesAreGood(opt, log, states, i, side);
    ClockAdvances(log, i);
    LockWithinMax(opt, Threshold(opt, side), e);
    LockShortenedExactly(opt, log, states, i, side, key);
    RunStep(opt, log, states, i);
    LockGoesOnlyWithoutRoom(opt, TableOf(states[i], side), KeyOf(side, log[i].op), key, Threshold(opt, side), log[i].now, TableOf(states[i + 1], side));
  }

  lemma LockWithinMax(opt: Options, threshold: int, e: Entry)
    requires ValidOptions(opt) && 0 < opt.lockoutMax <= TWO62 && Good(opt, threshold, e)
    ensures e.lockedUntil <= e.lastSeen + opt.lockoutMax
  {
    if e.failures >= threshold { BackoffMonotone(opt, e.failures - threshold, e.failures - threshold); }
  }

  lemma LockGoesOnlyWithoutRoom(opt: Options, m: Table, failing: string, key: string, threshold: int, now: nat, r: Table)
    requires ValidOptions(opt) && Bumped(opt, m, failing, threshold, now, r) && key in m && Locked(m[key], now)
    ensures key !in r ==> !HasRoom(opt, m, failing, threshold, now)
  {
    EvictsExactlyWithoutRoom(opt, m, failing, threshold, now, r);
    assert key in Unexpired(opt, m, now);
  }

  // ---------- a burst of failures ----------

  const BURST_AT: nat := 1

  /** n failures of one user from one bucket at one instant. */
  function Burst(username: string, bucket: string, n: nat): Log {
    seq(n, _ => Item(BURST_AT, Failure(username, bucket)))
  }

  lemma BumpWithRoom(opt: Options, m: Table, key: string, threshold: int, now: nat) returns (r: Table)
    requires ValidOptions(opt) && HasRoom(opt, m, key, threshold, now)
    ensures Bumped(opt, m, key, threshold, now, r) && r.Keys <= m.Keys + {key}
  {
    if key == "" || threshold <= 0 {
      r := m;
    } else if key in m {
      r := m[key := BumpEntry(opt, m[key], threshold, now)];
    } else {
      var c := if opt.maxEntries <= 0 || |m| < opt.maxEntries then m else Unexpired(opt, m, now);
      assert MadeRoom(opt, m, now, c);
      r := c[key := BumpEntry(opt, FRESH, threshold, now)];
    }
  }

  /** A table with at most the failing key has room. */
  lemma OneKeyHasRoom(opt: Options, m: Table, key: string, threshold: int, now: nat)
    requires m.Keys <= {key}
    ensures HasRoom(opt, m, key, threshold, now)
  {
    if key !in m { assert m.Keys == {}; }
  }

  predicate OnlyKeys(s: State, username: string, bucket: string) {
    s.ip.Keys <= {bucket} && s.combo.Keys <= {ComboKey(username, bucket)}
  }

  lemma FailureStep(opt: Options, p: State, now: nat, username: string, bucket: string) returns (s: State)
    requires ValidOptions(opt) && OnlyKeys(p, username, bucket)
    ensures Step(opt, p, Item(now, Failure(username, bucket)), s) && OnlyKeys(s, username, bucket)
    ensures NoEviction(opt, p, Item(now, Failure(username, bucket)))
  {
    OneKeyHasRoom(opt, p.ip, bucket, opt.maxFailuresIP, now);
    OneKeyHasRoom(opt, p.combo, ComboKey(username, bucket), opt.maxFailuresUser, now);
    var ip := BumpWithRoom(opt, p.ip, bucket, opt.maxFailuresIP, now);
    var combo := BumpWithRoom(opt, p.combo, ComboKey(username, bucket), opt.maxFailuresUser, now);
    s := State(ip, combo);
  }

  lemma {:induction false} BurstRun(opt: Options, username: string, bucket: string, n: nat) returns (states: seq<State>)
    requires ValidOptions(opt)
    ensures Run(opt, Burst(username, bucket, n), states) && EvictionFree(opt, Burst(username, bucket, n), states, n)
    ensures OnlyKeys(states[n], username, bucket)
  {
    if n == 0 {
      states := [EMPTY];
    } else {
      var before := BurstRun(opt, username, bucket, n - 1);
      var it := Item(BURST_AT, Failure(username, bucket));
      var s := FailureStep(opt, before[n - 1], BURST_AT, username, bucket);
      assert Burst(username, bucket, n) == Burst(username, bucket, n - 1) + [it];
      RunExtends(opt, Burst(username, bucket, n - 1), before, it, s);
      EvictionFreeExtends(opt, Burst(username, bucket, n - 1), before, it, s);
      states := before + [s];
    }
  }

  function Repeated(n: nat): seq<nat> { seq(n, _ => BURST_AT) }

  lemma {:induction false} BurstTimes(username: string, bucket: string, n: nat, side: Side)
    ensures FailureTimes(Burst(username, bucket, n), side, KeyOf(side, Failure(username, bucket))) == Repeated(n)
  {
    if n > 0 {
      BurstTimes(username, bucket, n - 1, side);
      assert Burst(username, bucket, n)[..n - 1] == Burst(username, bucket, n - 1);
      assert Repeated(n) == Repeated(n - 1) + [BURST_AT];
    }
  }

  lemma {:induction false} RepeatedStreak(n: nat, window: int)
    ensures Streak(Repeated(n), window) == n
  {
    if n > 1 {
      RepeatedStreak(n - 1, window);
      assert Repeated(n)[..n - 1] == Repeated(n - 1);
    }
  }

  function BurstEntry(opt: Options, threshold: int, n: nat): Entry
    requires ValidOptions(opt) && threshold > 0
  {
    Entry(n, if n < threshold then 0 else BURST_AT + Backoff(opt, n - threshold), BURST_AT)
  }

  lemma JustFailed(opt: Options, m: Table, key: string, threshold: int, times: seq<nat>)
    requires ValidOptions(opt) && key != "" && threshold > 0 && times != []
    requires Agrees(opt, m, key, threshold, times, times[|times| - 1])
    ensures key in m && m[key] == EntryOf(opt, threshold, times)
  {}

  lemma BurstAgrees(opt: Options, username: string, bucket: string, n: nat, states: seq<State>, side: Side, key: string)
    requires ValidOptions(opt) && n > 0 && key == KeyOf(side, Failure(username, bucket))
    requires Run(opt, Burst(username, bucket, n), states) && EvictionFree(opt, Burst(username, bucket, n), states, n)
    ensures Agrees(opt, TableOf(states[n], side), key, Threshold(opt, side), Repeated(n), BURST_AT)
  {
    var log := Burst(username, bucket, n);
    assert log[..n] == log && Clock(log, n) == BURST_AT;
    ReachableAgrees(opt, log, states, n, side, key);
    BurstTimes(username, bucket, n, side);
  }

  /** After the burst the failing keys have entries that count all of it. */
  lemma BurstCounts(opt: Options, username: string, bucket: string, n: nat, states: seq<State>, side: Side, key: string)
    requires ValidOptions(opt) && n > 0 && Threshold(opt, side) > 0
    requires Run(opt, Burst(username, bucket, n), states) && EvictionFree(opt, Burst(username, bucket, n), states, n)
    requires key == KeyOf(side, Failure(username, bucket)) && key != ""
    ensures key in TableOf(states[n], side) && TableOf(states[n], side)[key] == BurstEntry(opt, Threshold(opt, side), n)
  {
    BurstAgrees(opt, username, bucket, n, states, side, key);
    JustFailed(opt, TableOf(states[n], side), key, Threshold(opt, side), Repeated(n));
    RepeatedStreak(n, opt.failureWindow);
  }

  // ---------- exactly when a lock can be shortened ----------

  /** How often the base must be doubled to reach the maximum. */
  function Doublings(d: int, max: int): (n: nat)
    requires 0 < d
    decreases max - d
    ensures d * Pow2(n) >= max
    ensures n > 0 ==> d * Pow2(n - 1) < max
  {
    if d >= max then 0
    else
      var n := Doublings(2 * d, max);
      DoubleMore(d, n + 1);
      assert n > 0 ==> (2 * d) * Pow2(n - 1) == d * Pow2(n) by { if n > 0 { DoubleMore(d, n); } }
      n + 1
  }

  /** How much longer than the window a lock must last for a later failure to shorten it. */
  function Slack(opt: Options, threshold: int): int {
    opt.failureWindow + 1 + if threshold == 1 then Min(BaseOf(opt), opt.lockoutMax) else 0
  }

  predicate CanShorten(opt: Options, threshold: int) {
    threshold > 0 && opt.failureWindow > 0 && opt.lockoutMax > Slack(opt, threshold)
  }

  /** Threshold failures, as many more as it takes to reach LockoutMax, and one just after the window. */
  function ShorteningLog(opt: Options, threshold: int): Log
    requires ValidOptions(opt) && threshold > 0 && opt.failureWindow > 0
  {
    Burst("u", "b", threshold + Doublings(BaseOf(opt), opt.lockoutMax))
      + [Item(BURST_AT + opt.failureWindow + 1, Failure("u", "b"))]
  }

  lemma FirstBackoff(opt: Options)
    requires ValidOptions(opt) && 0 < opt.lockoutMax <= TWO62
    ensures Backoff(opt, 0) == Min(BaseOf(opt), opt.lockoutMax)
  {
    DoubledClosedForm(BaseOf(opt), opt.lockoutMax, 0);
  }

  lemma ShorteningStates(opt: Options, side: Side, key: string) returns (states: seq<State>)
    requires ValidOptions(opt) && Threshold(opt, side) > 0 && opt.failureWindow > 0
    requires key == KeyOf(side, Failure("u", "b")) && key != ""
    ensures var log, n := ShorteningLog(opt, Threshold(opt, side)), Threshold(opt, side) + Doublings(BaseOf(opt), opt.lockoutMax);
      && Run(opt, log, states) && Timed(log) && |log| == n + 1
      && key in TableOf(states[n], side) && TableOf(states[n], side)[key] == BurstEntry(opt, Threshold(opt, side), n)
  {
    var log, n := ShorteningLog(opt, Threshold(opt, side)), Threshold(opt, side) + Doublings(BaseOf(opt), opt.lockoutMax);
    var burst := BurstRun(opt, "u", "b", n);
    var s := FailureStep(opt, burst[n], log[n].now, "u", "b");
    states := burst + [s];
    RunExtends(opt, Burst("u", "b", n), burst, log[n], s);
    BurstCounts(opt, "u", "b", n, burst, side, key);
  }

  /** The burst's lock lasts for LockoutMax, so it is active when the window has passed. */
  lemma LongestLockIsShortened(opt: Options, threshold: int)
    requires ValidOptions(opt) && 0 < opt.lockoutMax <= TWO62 && CanShorten(opt, threshold)
    ensures var e, now := BurstEntry(opt, threshold, threshold + Doublings(BaseOf(opt), opt.lockoutMax)), BURST_AT + opt.failureWindow + 1;
      && e.lockedUntil == BURST_AT + opt.lockoutMax && Locked(e, now) && now - e.lastSeen > opt.failureWindow
      && !(threshold == 1 && now + Backoff(opt, 0) >= e.lockedUntil)
  {
    DoubledClosedForm(BaseOf(opt), opt.lockoutMax, Doublings(BaseOf(opt), opt.lockoutMax));
    FirstBackoff(opt);
  }

  /** The run of that log, whose last failure shortens the lock. */
  lemma ShorteningRun(opt: Options, side: Side, key: string) returns (states: seq<State>)
    requires ValidOptions(opt) && 0 < opt.lockoutMax <= TWO62 && CanShorten(opt, Threshold(opt, side))
    requires key == KeyOf(side, Failure("u", "b")) && key != ""
    ensures var log := ShorteningLog(opt, Threshold(opt, side));
      log != [] && ShortensAt(opt, log, states, |log| - 1, side, key)
  {
    states := ShorteningStates(opt, side, key);
    LongestLockIsShortened(opt, Threshold(opt, side));
    var log := ShorteningLog(opt, Threshold(opt, side));
    LockShortenedExactly(opt, log, states, |log| - 1, side, key);
  }

  ghost predicate ShortensAt(opt: Options, log: Log, states: seq<State>, i: nat, side: Side, key: string)
    requires ValidOptions(opt)
  {
    Run(opt, log, states) && Timed(log) && i < |log| && Shortens(states[i], log[i], states[i + 1], side, key)
  }

  lemma ShorteningNeedsSlack(opt: Options, log: Log, states: seq<State>, i: nat, side: Side, key: string)
    requires ValidOptions(opt) && 0 < opt.lockoutMax <= TWO62 && ShortensAt(opt, log, states, i, side, key)
    ensures CanShorten(opt, Threshold(opt, side))
  {
    var e := TableOf(states[i], side)[key];
    EntriesAreGood(opt, log, states, i, side);
    ClockAdvances(log, i);
    LockWithinMax(opt, Threshold(opt, side), e);
    FirstBackoff(opt);
    LockShortenedExactly(opt, log, states, i, side, key);
  }

  /** Some run shortens an active lock exactly when LockoutMax exceeds the window, by more than the first
      lock if a single failure already locks. */
  lemma ShorteningPossibleExactly(opt: Options, side: Side)
    requires ValidOptions(opt) && 0 < opt.lockoutMax <= TWO62
    ensures (exists log, states, i: nat, key :: ShortensAt(opt, log, states, i, side, key))
      <==> CanShorten(opt, Threshold(opt, side))
  {
    if CanShorten(opt, Threshold(opt, side)) {
      var states := ShorteningRun(opt, side, KeyOf(side, Failure("u", "b")));
    }
    if log, states, i: nat, key :| ShortensAt(opt, log, states, i, side, key) {
      ShorteningNeedsSlack(opt, log, states, i, side, key);
    }
  }

  // ---------- isolation of address buckets ----------

  predicate AtFree(s: string) { '@' !in s }

  /** Parsed addresses contain no '@', so combo keys of different buckets differ, whatever the user
      names contain. */
  lemma ComboKeyInjective(u: string, b: string, v: string, c: string)
    requires AtFree(b) && AtFree(c) && ComboKey(u, b) == ComboKey(v, c)
    ensures u == v && b == c
  {
    assert ComboKey(u, b) == u + ['@'] + b && ComboKey(v, c) == v + ['@'] + c;
    LastSeparatorUnique(u, b, v, c, '@');
  }

  /** Isolation: a failure never turns an allowed login of another bucket into a denied one, nor
      prolongs a denial, as long as the combined keys differ. */
  lemma OtherBucketNeverStricter(opt: Options, s: State, it: Item, s': State, username: string, bucket: string, later: nat)
    requires ValidOptions(opt) && it.op.Failure? && Step(opt, s, it, s')
    requires bucket != it.op.bucket && ComboKey(username, bucket) != ComboKey(it.op.username, it.op.bucket)
    ensures NotStricter(Decide(s.ip, s.combo, username, bucket, later), Decide(s'.ip, s'.combo, username, bucket, later))
  {
    BumpTouchesOthersOnlyByEviction(opt, s.ip, it.op.bucket, opt.maxFailuresIP, it.now, s'.ip);
    BumpTouchesOthersOnlyByEviction(opt, s.combo, ComboKey(it.op.username, it.op.bucket), opt.maxFailuresUser, it.now, s'.combo);
  }

  predicate NotStricter(prior: Decision, after: Decision) {
    (prior.allowed ==> after.allowed) && after.retryIn <= prior.retryIn
  }

  /** Parsed buckets always have different combined keys. */
  lemma ParsedBucketsAreIsolated(opt: Options, s: State, it: Item, s': State, username: string, bucket: string, later: nat)
    requires ValidOptions(opt) && it.op.Failure? && Step(opt, s, it, s')
    requires bucket != it.op.bucket && AtFree(bucket) && AtFree(it.op.bucket)
    ensures NotStricter(Decide(s.ip, s.combo, username, bucket, later), Decide(s'.ip, s'.combo, username, bucket, later))
  {
    if ComboKey(username, bucket) == ComboKey(it.op.username, it.op.bucket) {
      ComboKeyInjective(username, bucket, it.op.username, it.op.bucket);
    }
    OtherBucketNeverStricter(opt, s, it, s', username, bucket, later);
  }

  /** The combined keys must differ: whenever those of two buckets agree, failures from the one lock the
      other's user out, from the threshold on. */
  lemma SharedComboKeyLocks(opt: Options, username: string, bucket: string, victim: string, target: string)
    returns (log: Log, states: seq<State>)
    requires ValidOptions(opt) && 0 < opt.lockoutMax <= TWO62 && opt.maxFailuresUser > 0
    requires target != bucket && ComboKey(victim, target) == ComboKey(username, bucket)
    ensures log == Burst(username, bucket, opt.maxFailuresUser) && Run(opt, log, states)
    ensures var n := opt.maxFailuresUser;
      && Decide(states[n - 1].ip, states[n - 1].combo, victim, target, BURST_AT).allowed
      && !Decide(states[n].ip, states[n].combo, victim, target, BURST_AT).allowed
  {
    var n := opt.maxFailuresUser;
    var it := Item(BURST_AT, Failure(username, bucket));
    var before := BurstRun(opt, username, bucket, n - 1);
    var s := FailureStep(opt, before[n - 1], BURST_AT, username, bucket);
    log, states := Burst(username, bucket, n), before + [s];
    assert log == Burst(username, bucket, n - 1) + [it];
    RunExtends(opt, Burst(username, bucket, n - 1), before, it, s);
    BackoffMonotone(opt, 0, 0);
    if n > 1 { BurstCounts(opt, username, bucket, n - 1, before, Combo, ComboKey(username, bucket)); }
    BurstCounts(opt, username, bucket, n, states, Combo, ComboKey(username, bucket));
  }

  /** A failure of one pair makes an answer about the other stricter, at item i of a run. */
  ghost predicate StricterAt(opt: Options, failing: Op, victim: string, target: string,
                             log: Log, states: seq<State>, i: nat, later: nat)
    requires ValidOptions(opt)
  {
    && Run(opt, log, states) && Timed(log) && i < |log| && log[i].op == failing
    && !NotStricter(Decide(states[i].ip, states[i].combo, victim, target, later),
                    Decide(states[i + 1].ip, states[i + 1].combo, victim, target, later))
  }

  /** A failure can make an answer about another bucket stricter exactly when the two combined keys are
      the same. */
  lemma StricterExactly(opt: Options, username: string, bucket: string, victim: string, target: string)
    requires ValidOptions(opt) && 0 < opt.lockoutMax <= TWO62 && opt.maxFailuresUser > 0 && target != bucket
    ensures (exists log, states, i, later :: StricterAt(opt, Failure(username, bucket), victim, target, log, states, i, later))
      <==> ComboKey(victim, target) == ComboKey(username, bucket)
  {
    if ComboKey(victim, target) == ComboKey(username, bucket) {
      var log, states := SharedComboKeyLocks(opt, username, bucket, victim, target);
      assert StricterAt(opt, Failure(username, bucket), victim, target, log, states, opt.maxFailuresUser - 1, BURST_AT);
    } else if log, states, i, later :| StricterAt(opt, Failure(username, bucket), victim, target, log, states, i, later) {
      RunStep(opt, log, states, i);
      OtherBucketNeverStricter(opt, states[i], log[i], states[i + 1], victim, target, later);
    }
  }

  /** An address that cannot be parsed is used as it is; with an '@' in it, failures of one user from
      another bucket lock a user of this bucket out. This is about the limiter's interface: the server
      passes socket addresses, or parsed ones, of which only IPv6 addresses with a zone stay unparsed. */
  lemma UnparsedBucketCollides(opt: Options) returns (log: Log, states: seq<State>)
    requires ValidOptions(opt) && 0 < opt.lockoutMax <= TWO62 && opt.maxFailuresUser > 0
    ensures log == Burst("u@x", "y", opt.maxFailuresUser) && Run(opt, log, states)
    ensures !Decide(states[|log|].ip, states[|log|].combo, "u", "x@y", BURST_AT).allowed
  {
    assert ComboKey("u", "x@y") == "u@x@y";
    assert ComboKey("u@x", "y") == "u@x@y";
    assert |"x@y"| != |"y"|;
    log, states := SharedComboKeyLocks(opt, "u@x", "y", "u", "x@y");
  }

  // ---------- isolation over runs ----------

  /** Two failures lock for 10; one failed before another is locked; room for two. */
  const SMALL := Options(0, 2, 10, 10, 1000, 2)

  lemma SmallBackoff()
    ensures ValidOptions(SMALL) && Backoff(SMALL, 0) == 10
  {}

  function Fails(now: nat, bucket: string): Item { Item(now, Failure("", bucket)) }

  /** A step of the address table alone: the combined table is switched off and stays empty. */
  lemma SmallStep(m: Table, now: nat, bucket: string, r: Table)
    requires ValidOptions(SMALL) && Bumped(SMALL, m, bucket, 2, now, r)
    ensures Step(SMALL, State(m, map[]), Fails(now, bucket), State(r, map[]))
  {}

  lemma SmallNew(m: Table, now: nat, bucket: string)
    requires ValidOptions(SMALL) && bucket != "" && bucket !in m && |m| < 2
    ensures Bumped(SMALL, m, bucket, 2, now, m[bucket := Entry(1, 0, now)])
  {
    assert MadeRoom(SMALL, m, now, m);
    assert BumpEntry(SMALL, FRESH, 2, now) == Entry(1, 0, now);
  }

  lemma SmallAgain(m: Table, now: nat, bucket: string)
    requires ValidOptions(SMALL) && Backoff(SMALL, 0) == 10 && bucket != "" && bucket in m
    requires m[bucket].failures == 1 && m[bucket].lastSeen <= now <= m[bucket].lastSeen + 1000
    ensures Bumped(SMALL, m, bucket, 2, now, m[bucket := Entry(2, now + 10, now)])
  {}

  lemma SmallEviction(m: Table, now: nat, bucket: string, victim: string)
    requires ValidOptions(SMALL) && bucket != "" && bucket !in m && |m| == 2 && victim in m
    requires forall k :: k in m ==> m[k].lastSeen <= now <= m[k].lastSeen + 1000
    requires Victim(m, now, victim)
    ensures Bumped(SMALL, m, bucket, 2, now, (m - {victim})[bucket := Entry(1, 0, now)])
  {
    assert Unexpired(SMALL, m, now) == m;
    assert MadeRoom(SMALL, m, now, m - {victim});
    assert BumpEntry(SMALL, FRESH, 2, now) == Entry(1, 0, now);
  }

  predicate Different(a: string, b: string, y: string, c: string) {
    a != b && a != y && a != c && b != y && b != c && y != c && "" !in {a, b, y, c}
  }

  /** b is locked, k failed once. */
  function Pair(b: string, k: string, now: nat): Table { map[b := Entry(2, 13, 3), k := Entry(1, 0, now)] }

  lemma CommonRun(b: string, y: string) returns (states: seq<State>)
    requires b != y && b != "" && y != ""
    ensures ValidOptions(SMALL) && Run(SMALL, [Fails(1, y), Fails(2, b), Fails(3, b)], states)
    ensures states[3] == State(Pair(b, y, 1), map[])
  {
    SmallBackoff();
    var empty: Table := map[];
    var m1 := empty[y := Entry(1, 0, 1)];
    var m2 := m1[b := Entry(1, 0, 2)];
    SmallNew(empty, 1, y);
    SmallStep(empty, 1, y, m1);
    SmallNew(m1, 2, b);
    SmallStep(m1, 2, b, m2);
    SmallAgain(m2, 3, b);
    assert m2[b := Entry(2, 13, 3)] == Pair(b, y, 1);
    SmallStep(m2, 3, b, Pair(b, y, 1));
    states := [EMPTY, State(m1, map[]), State(m2, map[]), State(Pair(b, y, 1), map[])];
  }

  /** Then y is locked too, and c takes the place of b, the longest unseen. */
  lemma WithoutExtra(b: string, y: string, c: string) returns (s: State, t: State)
    requires b != y && b != c && y != c && "" !in {b, y, c}
    ensures ValidOptions(SMALL) && Step(SMALL, State(Pair(b, y, 1), map[]), Fails(5, y), s)
    ensures Step(SMALL, s, Fails(6, c), t) && b !in t.ip && t.combo == map[]
  {
    SmallBackoff();
    var m := Pair(b, y, 1)[y := Entry(2, 15, 5)];
    SmallAgain(Pair(b, y, 1), 5, y);
    SmallStep(Pair(b, y, 1), 5, y, m);
    SmallEviction(m, 6, c, b);
    SmallStep(m, 6, c, (m - {b})[c := Entry(1, 0, 6)]);
    s, t := State(m, map[]), State((m - {b})[c := Entry(1, 0, 6)], map[]);
  }

  lemma UnlockedIsVictim(b: string, v: string, seen: nat, now: nat)
    requires b != v && seen <= now && 3 <= now < 13
    ensures Victim(Pair(b, v, seen), now, v) && |Pair(b, v, seen)| == 2
  {
    assert Pair(b, v, seen).Keys == {b, v} && |{b, v}| == 2;
    assert v in Pair(b, v, seen) && !Locked(Pair(b, v, seen)[v], now);
  }

  lemma SwapPair(b: string, v: string, seen: nat, k: string, now: nat)
    requires b != v && b != k && v != k
    ensures (Pair(b, v, seen) - {v})[k := Entry(1, 0, now)] == Pair(b, k, now)
  {}

  /** A new key takes the place of the unlocked one. */
  lemma Swap(b: string, v: string, seen: nat, k: string, now: nat)
    requires b != v && b != k && v != k && k != "" && seen <= now && 3 <= now < 13
    ensures ValidOptions(SMALL) && Step(SMALL, State(Pair(b, v, seen), map[]), Fails(now, k), State(Pair(b, k, now), map[]))
  {
    SmallBackoff();
    UnlockedIsVictim(b, v, seen, now);
    SmallEviction(Pair(b, v, seen), now, k, v);
    SwapPair(b, v, seen, k, now);
    SmallStep(Pair(b, v, seen), now, k, Pair(b, k, now));
  }

  function LogWithout(b: string, y: string, c: string): Log {
    [Fails(1, y), Fails(2, b), Fails(3, b)] + [Fails(5, y)] + [Fails(6, c)]
  }

  function LogWith(a: string, b: string, y: string, c: string): Log {
    [Fails(1, y), Fails(2, b), Fails(3, b)] + [Fails(4, a)] + [Fails(5, y)] + [Fails(6, c)]
  }

  lemma RunWithout(b: string, y: string, c: string) returns (states: seq<State>)
    requires b != y && b != c && y != c && "" !in {b, y, c}
    ensures ValidOptions(SMALL) && Run(SMALL, LogWithout(b, y, c), states)
    ensures b !in states[5].ip && states[5].combo == map[]
  {
    var common := CommonRun(b, y);
    var s, t := WithoutExtra(b, y, c);
    RunExtends(SMALL, [Fails(1, y), Fails(2, b), Fails(3, b)], common, Fails(5, y), s);
    RunExtends(SMALL, [Fails(1, y), Fails(2, b), Fails(3, b)] + [Fails(5, y)], common + [s], Fails(6, c), t);
    states := common + [s] + [t];
  }

  lemma RunWith(a: string, b: string, y: string, c: string) returns (states: seq<State>)
    requires Different(a, b, y, c)
    ensures ValidOptions(SMALL) && Run(SMALL, LogWith(a, b, y, c), states) && states[6].ip == Pair(b, c, 6)
  {
    var common := CommonRun(b, y);
    var first := [Fails(1, y), Fails(2, b), Fails(3, b)];
    var r, s, t := State(Pair(b, a, 4), map[]), State(Pair(b, y, 5), map[]), State(Pair(b, c, 6), map[]);
    Swap(b, y, 1, a, 4);
    RunExtends(SMALL, first, common, Fails(4, a), r);
    Swap(b, a, 4, y, 5);
    RunExtends(SMALL, first + [Fails(4, a)], common + [r], Fails(5, y), s);
    Swap(b, y, 5, c, 6);
    RunExtends(SMALL, first + [Fails(4, a)] + [Fails(5, y)], common + [r] + [s], Fails(6, c), t);
    states := common + [r] + [s] + [t];
  }

  /** Over whole runs isolation needs that nothing is evicted (OtherKeysDoNotMatter). With eviction one
      more failure of some bucket can change who is evicted later, and leave another bucket locked that
      was not, even with LockoutMax within the window. */
  lemma ExtraFailureCanKeepALock(a: string, b: string, y: string, c: string)
    returns (log: Log, states: seq<State>, states': seq<State>)
    requires Different(a, b, y, c)
    ensures ValidOptions(SMALL) && SMALL.lockoutMax <= SMALL.failureWindow && |log| == 5
    ensures Run(SMALL, log, states) && Decide(states[5].ip, states[5].combo, "", b, 7).allowed
    ensures Run(SMALL, log[..3] + [Fails(4, a)] + log[3..], states') && !Decide(states'[6].ip, states'[6].combo, "", b, 7).allowed
  {
    log := LogWithout(b, y, c);
    states := RunWithout(b, y, c);
    states' := RunWith(a, b, y, c);
    assert log[..3] + [Fails(4, a)] + log[3..] == LogWith(a, b, y, c);
  }
}
