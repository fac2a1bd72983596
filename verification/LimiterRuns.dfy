/** Runs of the login limiter, and the specification over the log of failures that they refine as long
    as nothing is evicted (apps/api/internal/ratelimit/login.go). */
module LimiterRuns {
  import opened Common
  import opened LoginLimiter

  datatype State = State(ip: Table, combo: Table)

  const EMPTY := State(map[], map[])

  datatype Op = Failure(username: string, bucket: string) | Success(username: string, bucket: string) | Sweep

  datatype Item = Item(now: nat, op: Op)

  type Log = seq<Item>

  ghost predicate Step(opt: Options, s: State, it: Item, s': State)
    requires ValidOptions(opt)
  {
    match it.op
    case Failure(u, b) =>
      Bumped(opt, s.ip, b, opt.maxFailuresIP, it.now, s'.ip) &&
      Bumped(opt, s.combo, ComboKey(u, b), opt.maxFailuresUser, it.now, s'.combo)
    case Success(u, b) => s' == State(s.ip - {b}, s.combo - {ComboKey(u, b)})
    case Sweep => s' == State(Unexpired(opt, s.ip, it.now), Unexpired(opt, s.combo, it.now))
  }

  /** states[i] becomes states[i + 1] by log[i]. */
  ghost predicate Run(opt: Options, log: Log, states: seq<State>)
    requires ValidOptions(opt)
  {
    |states| == |log| + 1 && states[0] == EMPTY &&
    forall i :: 0 <= i < |log| ==> Step(opt, states[i], log[i], states[i + 1])
  }

  lemma RunStep(opt: Options, log: Log, states: seq<State>, n: nat)
    requires ValidOptions(opt) && Run(opt, log, states) && n < |log|
    ensures Step(opt, states[n], log[n], states[n + 1])
  {}

  lemma RunExtends(opt: Options, log: Log, states: seq<State>, it: Item, s: State)
    requires ValidOptions(opt) && Run(opt, log, states) && Step(opt, states[|log|], it, s)
    ensures Run(opt, log + [it], states + [s])
  {}

  /** The clock is positive and does not run backwards. */
  ghost predicate Timed(log: Log) {
    (forall i :: 0 <= i < |log| ==> 0 < log[i].now) &&
    forall i, j :: 0 <= i < j < |log| ==> log[i].now <= log[j].now
  }

  /** The time of the state after n items. */
  function Clock(log: Log, n: nat): nat
    requires n <= |log|
  {
    if n == 0 then 0 else log[n - 1].now
  }

  lemma ClockAdvances(log: Log, n: nat)
    requires Timed(log) && n < |log|
    ensures Clock(log, n) <= log[n].now == Clock(log, n + 1) && 0 < log[n].now
  {}

  // ---------- the specification over the log ----------

  datatype Side = Ip | Combo

  function KeyOf(side: Side, op: Op): string
    requires !op.Sweep?
  {
    if side.Ip? then op.bucket else ComboKey(op.username, op.bucket)
  }

  function Threshold(opt: Options, side: Side): int {
    if side.Ip? then opt.maxFailuresIP else opt.maxFailuresUser
  }

  /** What an item of the log adds to the failure times of a key. */
  function TimesAfter(times: seq<nat>, it: Item, side: Side, key: string): seq<nat> {
    if it.op.Sweep? || KeyOf(side, it.op) != key then times
    else if it.op.Success? then []
    else times + [it.now]
  }

  /** When the key failed since its last success. Sweeps do not appear in it. */
  function FailureTimes(log: Log, side: Side, key: string): (r: seq<nat>)
    decreases |log|
    ensures forall t :: t in r ==> exists i :: 0 <= i < |log| && log[i].now == t
  {
    if log == [] then []
    else
      assert forall i :: 0 <= i < |log| - 1 ==> log[..|log| - 1][i] == log[i];
      TimesAfter(FailureTimes(log[..|log| - 1], side, key), log[|log| - 1], side, key)
  }

  /** How many of the latest failures follow each other without a gap over the window. */
  function Streak(times: seq<nat>, window: int): (n: nat)
    ensures n <= |times| && (times != [] ==> n > 0)
    decreases |times|
  {
    if |times| <= 1 then |times|
    else if window > 0 && times[|times| - 1] - times[|times| - 2] > window then 1
    else 1 + Streak(times[..|times| - 1], window)
  }

  /** Streak in plain words: the longest run of latest failures with no idle gap. */
  lemma {:induction false} StreakMeaning(times: seq<nat>, window: int)
    ensures var n := Streak(times, window);
      && (window > 0 ==> forall i :: |times| - n < i < |times| ==> times[i] - times[i - 1] <= window)
      && (0 < n < |times| ==> window > 0 && times[|times| - n] - times[|times| - n - 1] > window)
    decreases |times|
  {
    if |times| > 1 && !(window > 0 && times[|times| - 1] - times[|times| - 2] > window) {
      StreakMeaning(times[..|times| - 1], window);
    }
  }

  /** The instant until which the log locks a key. */
  function LockedBy(opt: Options, threshold: int, times: seq<nat>): int
    requires ValidOptions(opt)
  {
    var n := Streak(times, opt.failureWindow);
    if times == [] || threshold <= 0 || n < threshold then 0
    else times[|times| - 1] + Backoff(opt, n - threshold)
  }

  function LockOf(opt: Options, log: Log, side: Side, key: string): int
    requires ValidOptions(opt)
  {
    if key == "" then 0 else LockedBy(opt, Threshold(opt, side), FailureTimes(log, side, key))
  }

  function EntryOf(opt: Options, threshold: int, times: seq<nat>): Entry
    requires ValidOptions(opt) && times != []
  {
    Entry(Streak(times, opt.failureWindow), LockedBy(opt, threshold, times), times[|times| - 1])
  }

  // ---------- refinement ----------

  /** The table's view of a key: exactly the log's entry, or nothing when there were no failures or
      they have lapsed. */
  ghost predicate Agrees(opt: Options, m: Table, key: string, threshold: int, times: seq<nat>, now: nat)
    requires ValidOptions(opt)
  {
    if key == "" || threshold <= 0 then key !in m
    else if key in m then times != [] && m[key] == EntryOf(opt, threshold, times)
    else times != [] ==> Expired(opt, EntryOf(opt, threshold, times), now)
  }

  /** One more failure turns the entry of the log into the entry of the longer log. */
  lemma EntryAfter(opt: Options, threshold: int, times: seq<nat>, now: nat)
    requires ValidOptions(opt) && threshold > 0 && times != [] && 0 < times[|times| - 1] <= now
    ensures BumpEntry(opt, EntryOf(opt, threshold, times), threshold, now) == EntryOf(opt, threshold, times + [now])
  {
    assert (times + [now])[..|times|] == times;
  }

  /** A lapsed entry counts for as little as none. */
  lemma EntryAnew(opt: Options, threshold: int, times: seq<nat>, now: nat)
    requires ValidOptions(opt) && threshold > 0
    requires times != [] ==> 0 < times[|times| - 1] <= now && Expired(opt, EntryOf(opt, threshold, times), now)
    ensures BumpEntry(opt, FRESH, threshold, now) == EntryOf(opt, threshold, times + [now])
  {
    assert (times + [now])[..|times|] == times;
  }

  lemma BumpAgrees(opt: Options, m: Table, key: string, threshold: int, times: seq<nat>, now: nat, r: Table)
    requires ValidOptions(opt) && 0 < now && HasRoom(opt, m, key, threshold, now)
    requires times != [] ==> 0 < times[|times| - 1] <= now
    requires Agrees(opt, m, key, threshold, times, now) && Bumped(opt, m, key, threshold, now, r)
    ensures Agrees(opt, r, key, threshold, times + [now], now)
  {
    if key != "" && threshold > 0 {
      if key in m {
        EntryAfter(opt, threshold, times, now);
      } else {
        EntryAnew(opt, threshold, times, now);
      }
    }
  }

  lemma OtherAgrees(opt: Options, m: Table, key: string, other: string, threshold: int, times: seq<nat>, now: nat, r: Table)
    requires ValidOptions(opt) && key != other && HasRoom(opt, m, key, threshold, now)
    requires Agrees(opt, m, other, threshold, times, now) && Bumped(opt, m, key, threshold, now, r)
    ensures Agrees(opt, r, other, threshold, times, now)
  {}

  lemma AgreesLater(opt: Options, m: Table, key: string, threshold: int, times: seq<nat>, before: nat, now: nat)
    requires ValidOptions(opt) && before <= now
    requires Agrees(opt, m, key, threshold, times, before)
    ensures Agrees(opt, m, key, threshold, times, now)
  {}

  function TableOf(s: State, side: Side): Table {
    if side.Ip? then s.ip else s.combo
  }

  /** Recording the item evicts nothing. */
  predicate NoEviction(opt: Options, s: State, it: Item) {
    it.op.Failure? ==>
      && HasRoom(opt, s.ip, it.op.bucket, opt.maxFailuresIP, it.now)
      && HasRoom(opt, s.combo, ComboKey(it.op.username, it.op.bucket), opt.maxFailuresUser, it.now)
  }

  /** None of the first n items of the run evicts anything. */
  predicate EvictionFree(opt: Options, log: Log, states: seq<State>, n: nat)
    requires n <= |log| < |states|
  {
    forall i :: 0 <= i < n ==> NoEviction(opt, states[i], log[i])
  }

  lemma EvictionFreeExtends(opt: Options, log: Log, states: seq<State>, it: Item, s: State)
    requires |states| == |log| + 1 && EvictionFree(opt, log, states, |log|) && NoEviction(opt, states[|log|], it)
    ensures EvictionFree(opt, log + [it], states + [s], |log| + 1)
  {}

  lemma StepAgrees(opt: Options, p: State, it: Item, s: State, side: Side, key: string, times: seq<nat>)
    requires ValidOptions(opt) && it.now > 0 && Step(opt, p, it, s) && NoEviction(opt, p, it)
    requires times != [] ==> 0 < times[|times| - 1] <= it.now
    requires Agrees(opt, TableOf(p, side), key, Threshold(opt, side), times, it.now)
    ensures Agrees(opt, TableOf(s, side), key, Threshold(opt, side), TimesAfter(times, it, side, key), it.now)
  {
    if it.op.Failure? {
      if KeyOf(side, it.op) == key {
        BumpAgrees(opt, TableOf(p, side), key, Threshold(opt, side), times, it.now, TableOf(s, side));
      } else {
        OtherAgrees(opt, TableOf(p, side), KeyOf(side, it.op), key, Threshold(opt, side), times, it.now, TableOf(s, side));
      }
    }
  }

  /** Failure times are times of the log. */
  lemma {:induction false} TimesAreTimed(log: Log, n: nat, side: Side, key: string)
    requires Timed(log) && n <= |log|
    ensures var times := FailureTimes(log[..n], side, key); times != [] ==> 0 < times[|times| - 1] <= Clock(log, n)
  {
    if n > 0 {
      assert log[..n][..n - 1] == log[..n - 1];
      TimesAreTimed(log, n - 1, side, key);
    }
  }

  lemma AgreesNext(opt: Options, log: Log, n: nat, p: State, s: State, side: Side, key: string)
    requires ValidOptions(opt) && Timed(log) && n < |log| && Step(opt, p, log[n], s) && NoEviction(opt, p, log[n])
    requires Agrees(opt, TableOf(p, side), key, Threshold(opt, side), FailureTimes(log[..n], side, key), Clock(log, n))
    ensures Agrees(opt, TableOf(s, side), key, Threshold(opt, side), FailureTimes(log[..n + 1], side, key), log[n].now)
  {
    var times := FailureTimes(log[..n], side, key);
    assert log[..n + 1][..n] == log[..n];
    ClockAdvances(log, n);
    TimesAreTimed(log, n, side, key);
    AgreesLater(opt, TableOf(p, side), key, Threshold(opt, side), times, Clock(log, n), log[n].now);
    StepAgrees(opt, p, log[n], s, side, key, times);
  }

  /** As long as nothing has been evicted, every state of every run agrees with the log on every key,
      whatever the cap. */
  lemma {:induction false} ReachableAgrees(opt: Options, log: Log, states: seq<State>, n: nat, side: Side, key: string)
    requires ValidOptions(opt) && Run(opt, log, states) && Timed(log)
    requires n <= |log| && EvictionFree(opt, log, states, n)
    ensures Agrees(opt, TableOf(states[n], side), key, Threshold(opt, side), FailureTimes(log[..n], side, key), Clock(log, n))
  {
    if n > 0 {
      ReachableAgrees(opt, log, states, n - 1, side, key);
      RunStep(opt, log, states, n - 1);
      assert NoEviction(opt, states[n - 1], log[n - 1]);
      AgreesNext(opt, log, n - 1, states[n - 1], states[n], side, key);
    }
  }

  /** The limiter refines the log specification: in any run of failures, successes and janitor sweeps
      that has evicted nothing so far, Allow denies exactly while the log of either key implies a lock,
      and RetryIn is the time until the later of the two ends. */
  lemma AllowRefinesLog(opt: Options, log: Log, states: seq<State>, n: nat, username: string, bucket: string, now: nat)
    requires ValidOptions(opt) && Run(opt, log, states) && Timed(log)
    requires n <= |log| && EvictionFree(opt, log, states, n) && now >= Clock(log, n)
    ensures var until := Max(LockOf(opt, log[..n], Ip, bucket), LockOf(opt, log[..n], Combo, ComboKey(username, bucket)));
      Decide(states[n].ip, states[n].combo, username, bucket, now) ==
        if now < until then Decision(false, until - now) else Decision(true, 0)
  {
    ReachableAgrees(opt, log, states, n, Ip, bucket);
    ReachableAgrees(opt, log, states, n, Combo, ComboKey(username, bucket));
    AgreesLater(opt, states[n].ip, bucket, opt.maxFailuresIP, FailureTimes(log[..n], Ip, bucket), Clock(log, n), now);
    AgreesLater(opt, states[n].combo, ComboKey(username, bucket), opt.maxFailuresUser,
      FailureTimes(log[..n], Combo, ComboKey(username, bucket)), Clock(log, n), now);
  }

  /** So what other keys do cannot be told from the answers: two such runs, even with different items at
      different times, answer alike wherever the failures of the two keys asked about are the same. */
  lemma OtherKeysDoNotMatter(opt: Options, log: Log, states: seq<State>, n: nat, log': Log, states': seq<State>, n': nat,
                             username: string, bucket: string, now: nat)
    requires ValidOptions(opt) && Run(opt, log, states) && Timed(log) && Run(opt, log', states') && Timed(log')
    requires n <= |log| && EvictionFree(opt, log, states, n) && now >= Clock(log, n)
    requires n' <= |log'| && EvictionFree(opt, log', states', n') && now >= Clock(log', n')
    requires FailureTimes(log[..n], Ip, bucket) == FailureTimes(log'[..n'], Ip, bucket)
    requires var key := ComboKey(username, bucket); FailureTimes(log[..n], Combo, key) == FailureTimes(log'[..n'], Combo, key)
    ensures Decide(states[n].ip, states[n].combo, username, bucket, now)
      == Decide(states'[n'].ip, states'[n'].combo, username, bucket, now)
  {
    AllowRefinesLog(opt, log, states, n, username, bucket, now);
    AllowRefinesLog(opt, log', states', n', username, bucket, now);
  }

  // ---------- when nothing can be evicted ----------

  function KeysOf(log: Log, side: Side): set<string> {
    set i | 0 <= i < |log| && log[i].op.Failure? :: KeyOf(side, log[i].op)
  }

  lemma {:induction false} KeysGrow(opt: Options, log: Log, states: seq<State>, n: nat, side: Side)
    requires ValidOptions(opt) && Run(opt, log, states) && n <= |log|
    ensures TableOf(states[n], side).Keys <= KeysOf(log, side)
  {
    if n > 0 {
      KeysGrow(opt, log, states, n - 1, side);
      var p, it, s := states[n - 1], log[n - 1], states[n - 1 + 1];
      assert Step(opt, p, it, s);
      if it.op.Failure? {
        BumpTouchesOthersOnlyByEviction(opt, TableOf(p, side), KeyOf(side, it.op), Threshold(opt, side), it.now, TableOf(s, side));
        assert KeyOf(side, it.op) in KeysOf(log, side);
      }
    }
  }

  /** If no more different keys fail than a table may hold, nothing is evicted. */
  lemma {:induction false} FewKeysNeverEvict(opt: Options, log: Log, states: seq<State>)
    requires ValidOptions(opt) && Run(opt, log, states)
    requires forall side :: |KeysOf(log, side)| <= opt.maxEntries
    ensures EvictionFree(opt, log, states, |log|)
  {
    forall i | 0 <= i < |log| && log[i].op.Failure?
      ensures NoEviction(opt, states[i], log[i])
    {
      FewKeysHaveRoom(opt, log, states, i, Ip);
      FewKeysHaveRoom(opt, log, states, i, Combo);
    }
  }

  lemma {:induction false} FewKeysHaveRoom(opt: Options, log: Log, states: seq<State>, i: nat, side: Side)
    requires ValidOptions(opt) && Run(opt, log, states) && i < |log| && log[i].op.Failure?
    requires |KeysOf(log, side)| <= opt.maxEntries
    ensures HasRoom(opt, TableOf(states[i], side), KeyOf(side, log[i].op), Threshold(opt, side), log[i].now)
  {
    var m, key := TableOf(states[i], side), KeyOf(side, log[i].op);
    KeysGrow(opt, log, states, i, side);
    Subset(m.Keys, KeysOf(log, side));
    assert key in KeysOf(log, side);
  }
}
