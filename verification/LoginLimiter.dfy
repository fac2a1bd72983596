/** The in-memory login limiter: backoff, counters with idle decay, the hard cap and the janitor
    (apps/api/internal/ratelimit/login.go). Instants are nanoseconds; 0 is Go's zero time, which the
    clock never returns. */
module LoginLimiter {
  import opened Common

  const MINUTE: int := 60_000_000_000
  const TWO62: int := 0x4000_0000_0000_0000
  const TWO63: int := 0x8000_0000_0000_0000
  const TWO64: int := 0x1_0000_0000_0000_0000

  datatype Options = Options(
    maxFailuresUser: int, maxFailuresIP: int, lockoutBase: int, lockoutMax: int,
    failureWindow: int, maxEntries: int)

  datatype Entry = Entry(failures: nat, lockedUntil: int, lastSeen: nat)

  const FRESH := Entry(0, 0, 0)

  type Table = map<string, Entry>

  datatype Decision = Decision(allowed: bool, retryIn: int)

  predicate Int64(x: int) { -TWO63 <= x < TWO63 }

  // ---------- backoff ----------

  /** `d <<= 1` on an int64. */
  function Shl1(d: int): (r: int)
    requires Int64(d)
    ensures Int64(r)
    ensures -TWO62 <= d < TWO62 ==> r == 2 * d
  {
    (2 * d + TWO63) % TWO64 - TWO63
  }

  function BaseOf(opt: Options): int {
    if opt.lockoutBase <= 0 then MINUTE else opt.lockoutBase
  }

  /** What the doubling loop returns from the value d with n rounds to go. */
  function Doubled(d: int, max: int, n: nat): (r: int)
    requires Int64(d) && Int64(max)
    ensures Int64(r)
    decreases n
  {
    if n == 0 then (if max > 0 && d > max then max else d)
    else if max > 0 && d >= max then max
    else Doubled(Shl1(d), max, n - 1)
  }

  function Backoff(opt: Options, n: nat): int
    requires ValidOptions(opt)
  {
    Doubled(BaseOf(opt), opt.lockoutMax, n)
  }

  predicate ValidOptions(opt: Options) { Int64(opt.lockoutBase) && Int64(opt.lockoutMax) }

  function Pow2(n: nat): (r: nat)
    ensures r >= 1 && r > n
  {
    if n == 0 then 1 else 2 * Pow2(n - 1)
  }

  function Min(a: int, b: int): int { if a <= b then a else b }

  /** base * 2^n clamped to max, for every max a duration comparison can double past safely. */
  lemma {:induction false} DoubledClosedForm(d: int, max: int, n: nat)
    requires 0 < d < TWO63 && 0 < max <= TWO62
    ensures Doubled(d, max, n) == Min(d * Pow2(n), max)
    decreases n
  {
    if n > 0 && d >= max {
      MulMonotone(d, 1, Pow2(n));
    } else if n > 0 {
      DoubledClosedForm(2 * d, max, n - 1);
      DoubleMore(d, n);
    }
  }

  lemma MulMonotone(a: int, x: int, y: int)
    requires a >= 0 && x <= y
    ensures a * x <= a * y
  {}

  lemma DoubleMore(d: int, n: nat)
    requires n > 0
    ensures (2 * d) * Pow2(n - 1) == d * Pow2(n)
  {
    assert Pow2(n) == 2 * Pow2(n - 1);
    assert (2 * d) * Pow2(n - 1) == d * (2 * Pow2(n - 1));
  }

  /** Without a ceiling the loop returns base * 2^n exactly as long as that fits an int64. */
  lemma {:induction false} DoubledUnbounded(d: int, max: int, n: nat)
    requires 0 < d < TWO63 && max <= 0 && Int64(max)
    ensures Doubled(d, max, n) == d * Pow2(n) <==> d * Pow2(n) < TWO63
  {
    if d * Pow2(n) < TWO63 { DoubledExact(d, max, n); }
  }

  lemma {:induction false} DoubledExact(d: int, max: int, n: nat)
    requires 0 < d < TWO63 && max <= 0 && Int64(max) && d * Pow2(n) < TWO63
    ensures Doubled(d, max, n) == d * Pow2(n)
    decreases n
  {
    if n > 0 {
      DoubleMore(d, n);
      MulMonotone(2 * d, 1, Pow2(n - 1));
      DoubledExact(2 * d, max, n - 1);
    }
  }

  lemma LastRound(d: int, max: int)
    requires TWO62 <= d < max < TWO63
    ensures Doubled(d, max, 1) < 0
  {
    assert Doubled(d, max, 1) == Doubled(Shl1(d), max, 0);
  }

  lemma OneRound(d: int, max: int, n: nat)
    requires 0 < d < max < TWO63 && 2 * d < TWO63
    ensures Doubled(d, max, n + 1) == Doubled(2 * d, max, n)
  {}

  /** A value from 2^62 on that is still below the ceiling is doubled once too often: it wraps. */
  lemma {:induction false} DoubledWraps(d: int, max: int, k: nat)
    requires 0 < d < TWO63 && 0 < max < TWO63 && TWO62 <= d * Pow2(k) < max
    ensures Doubled(d, max, k + 1) < 0
    decreases k
  {
    if k == 0 {
      LastRound(d, max);
    } else {
      DoubleMore(d, k);
      MulMonotone(2 * d, 1, Pow2(k - 1));
      OneRound(d, max, k);
      DoubledWraps(2 * d, max, k - 1);
    }
  }

  lemma {:induction false} DoubledSafe(d: int, max: int, n: nat)
    requires 0 < d < TWO63 && 0 < max < TWO63
    requires forall k: nat :: !(TWO62 <= d * Pow2(k) < max)
    ensures Doubled(d, max, n) == Min(d * Pow2(n), max)
    decreases n
  {
    assert !(TWO62 <= d * Pow2(0) < max);
    if n > 0 && d >= max {
      MulMonotone(d, 1, Pow2(n));
    } else if n > 0 {
      forall k: nat
        ensures !(TWO62 <= (2 * d) * Pow2(k) < max)
      {
        DoubleMore(d, k + 1);
        assert !(TWO62 <= d * Pow2(k + 1) < max);
      }
      DoubledSafe(2 * d, max, n - 1);
      DoubleMore(d, n);
    }
  }

  /** The closed form holds for every number of rounds exactly when no doubling of the base falls
      between 2^62 and the ceiling; with a ceiling up to 2^62 none can. */
  lemma ClosedFormExactly(d: int, max: int)
    requires 0 < d < TWO63 && 0 < max < TWO63
    ensures (forall n: nat :: Doubled(d, max, n) == Min(d * Pow2(n), max))
      <==> (forall k: nat :: !(TWO62 <= d * Pow2(k) < max))
  {
    if k: nat :| TWO62 <= d * Pow2(k) < max {
      DoubledWraps(d, max, k);
      MulMonotone(d, 1, Pow2(k + 1));
      assert Doubled(d, max, k + 1) != Min(d * Pow2(k + 1), max);
    } else {
      forall n: nat ensures Doubled(d, max, n) == Min(d * Pow2(n), max) { DoubledSafe(d, max, n); }
    }
  }

  lemma {:induction false} Pow2Monotone(m: nat, n: nat)
    requires m <= n
    ensures Pow2(m) <= Pow2(n)
  {
    if m < n { Pow2Monotone(m, n - 1); }
  }

  lemma BackoffMonotone(opt: Options, m: nat, n: nat)
    requires ValidOptions(opt) && 0 < opt.lockoutMax <= TWO62 && m <= n
    ensures 0 < Backoff(opt, m) <= Backoff(opt, n) <= opt.lockoutMax
  {
    DoubledClosedForm(BaseOf(opt), opt.lockoutMax, m);
    DoubledClosedForm(BaseOf(opt), opt.lockoutMax, n);
    Pow2Monotone(m, n);
    MulMonotone(BaseOf(opt), Pow2(m), Pow2(n));
    MulMonotone(BaseOf(opt), 1, Pow2(m));
  }

  // ---------- one entry ----------

  predicate Idle(opt: Options, e: Entry, now: nat) {
    opt.failureWindow > 0 && e.lastSeen != 0 && now - e.lastSeen > opt.failureWindow
  }

  /** Idle decay, then one more failure, then a lock when the threshold is reached. */
  function BumpEntry(opt: Options, e: Entry, threshold: int, now: nat): Entry
    requires ValidOptions(opt) && threshold > 0
  {
    var d := if Idle(opt, e, now) then e.(failures := 0, lockedUntil := 0) else e;
    var e1 := d.(failures := d.failures + 1, lastSeen := now);
    if e1.failures >= threshold then e1.(lockedUntil := now + Backoff(opt, e1.failures - threshold))
    else e1
  }

  predicate Locked(e: Entry, now: nat) { now < e.lockedUntil }

  predicate Expired(opt: Options, e: Entry, now: nat) {
    !Locked(e, now) && opt.failureWindow > 0 && now - e.lastSeen > opt.failureWindow
  }

  // ---------- one table ----------

  function Unexpired(opt: Options, m: Table, now: nat): (r: Table)
    ensures r.Keys <= m.Keys && |r| <= |m|
    ensures forall k :: k in r ==> r[k] == m[k]
  {
    var r := map k | k in m && !Expired(opt, m[k], now) :: m[k];
    Subset(r.Keys, m.Keys);
    r
  }

  /** The entry that is evicted: the longest unseen unlocked one, or, only when all are locked, the
      longest unseen. */
  ghost predicate Victim(u: Table, now: nat, k: string) {
    k in u &&
    if exists j :: j in u && !Locked(u[j], now) then
      !Locked(u[k], now) && forall j :: j in u && !Locked(u[j], now) ==> u[k].lastSeen <= u[j].lastSeen
    else
      forall j :: j in u ==> u[k].lastSeen <= u[j].lastSeen
  }

  ghost predicate OldestSoFar(u: Table, todo: set<string>, k: string) {
    k in u && forall j :: j in u && j !in todo ==> u[k].lastSeen <= u[j].lastSeen
  }

  ghost predicate OldestUnlockedSoFar(u: Table, now: nat, todo: set<string>, found: bool, k: string) {
    (found ==> k in u && !Locked(u[k], now)) &&
    forall j :: j in u && j !in todo && !Locked(u[j], now) ==> found && u[k].lastSeen <= u[j].lastSeen
  }

  /** r may be what ensureCapacity leaves of m. */
  ghost predicate MadeRoom(opt: Options, m: Table, now: nat, r: Table) {
    if opt.maxEntries <= 0 || |m| < opt.maxEntries then r == m
    else
      var u := Unexpired(opt, m, now);
      if |u| < opt.maxEntries then r == u
      else exists k :: Victim(u, now, k) && r == u - {k}
  }

  /** r may be m after one failure of the key. */
  ghost predicate Bumped(opt: Options, m: Table, key: string, threshold: int, now: nat, r: Table)
    requires ValidOptions(opt)
  {
    if key == "" || threshold <= 0 then r == m
    else if key in m then r == m[key := BumpEntry(opt, m[key], threshold, now)]
    else exists c :: MadeRoom(opt, m, now, c) && r == c[key := BumpEntry(opt, FRESH, threshold, now)]
  }

  /** A failure of the key evicts nothing that still counts: it needs no new entry, or dropping the
      expired entries makes room enough. */
  predicate HasRoom(opt: Options, m: Table, key: string, threshold: int, now: nat) {
    key == "" || threshold <= 0 || key in m || opt.maxEntries <= 0 || |Unexpired(opt, m, now)| < opt.maxEntries
  }

  /** And without room exactly one unexpired entry goes. */
  lemma EvictsExactlyWithoutRoom(opt: Options, m: Table, key: string, threshold: int, now: nat, r: Table)
    requires ValidOptions(opt) && Bumped(opt, m, key, threshold, now, r)
    ensures HasRoom(opt, m, key, threshold, now) <==> Unexpired(opt, m, now).Keys <= r.Keys
    ensures !HasRoom(opt, m, key, threshold, now) ==>
      exists k :: k in Unexpired(opt, m, now) && r.Keys == Unexpired(opt, m, now).Keys - {k} + {key}
  {
    if key != "" && threshold > 0 && key !in m {
      var c :| MadeRoom(opt, m, now, c) && r == c[key := BumpEntry(opt, FRESH, threshold, now)];
      var u := Unexpired(opt, m, now);
      if !HasRoom(opt, m, key, threshold, now) {
        var k :| Victim(u, now, k) && c == u - {k};
        assert k != key && k !in r;
        assert r.Keys == u.Keys - {k} + {key};
      }
    }
  }

  ghost predicate WithinCap(opt: Options, m: Table) {
    opt.maxEntries > 0 ==> |m| <= opt.maxEntries
  }

  /** MaxEntries is a hard bound. */
  lemma BumpKeepsCap(opt: Options, m: Table, key: string, threshold: int, now: nat, r: Table)
    requires ValidOptions(opt) && WithinCap(opt, m) && Bumped(opt, m, key, threshold, now, r)
    ensures WithinCap(opt, r)
  {
    if key != "" && threshold > 0 {
      if key in m {
        assert r.Keys == m.Keys;
      } else {
        var c :| MadeRoom(opt, m, now, c) && r == c[key := BumpEntry(opt, FRESH, threshold, now)];
        RoomIsBelowCap(opt, m, now, c);
        assert r.Keys == c.Keys + {key};
      }
    }
  }

  lemma RoomIsBelowCap(opt: Options, m: Table, now: nat, c: Table)
    requires WithinCap(opt, m) && MadeRoom(opt, m, now, c)
    ensures opt.maxEntries > 0 ==> |c| < opt.maxEntries
  {
    var u := Unexpired(opt, m, now);
    if opt.maxEntries > 0 && |m| >= opt.maxEntries && |u| >= opt.maxEntries {
      var k :| Victim(u, now, k) && c == u - {k};
      assert c.Keys == u.Keys - {k};
    }
  }

  /** A failure of one key leaves every other entry as it was or removes it, and it removes an active
      lock only when every entry that has not expired is locked. */
  lemma BumpTouchesOthersOnlyByEviction(opt: Options, m: Table, key: string, threshold: int, now: nat, r: Table)
    requires ValidOptions(opt) && Bumped(opt, m, key, threshold, now, r)
    ensures forall k :: k in r && k != key ==> k in m && r[k] == m[k]
    ensures forall k :: k in m && k !in r && Locked(m[k], now) ==>
      forall j :: j in m && !Expired(opt, m[j], now) ==> Locked(m[j], now)
  {
    if key != "" && threshold > 0 && key !in m {
      var c :| MadeRoom(opt, m, now, c) && r == c[key := BumpEntry(opt, FRESH, threshold, now)];
      var u := Unexpired(opt, m, now);
      forall k | k in m && k !in r && Locked(m[k], now)
        ensures forall j :: j in m && !Expired(opt, m[j], now) ==> Locked(m[j], now)
      {
        assert k in u && k !in c;
        forall j | j in m && !Expired(opt, m[j], now) ensures Locked(m[j], now) {
          assert j in u;
        }
      }
    }
  }

  /** What is evicted is the longest unseen of the unlocked entries, or of all when all are locked. */
  lemma EvictedIsLongestUnseen(opt: Options, m: Table, key: string, threshold: int, now: nat, r: Table, k: string)
    requires ValidOptions(opt) && Bumped(opt, m, key, threshold, now, r)
    requires k in m && !Expired(opt, m[k], now) && k !in r
    ensures forall j :: j in m && !Expired(opt, m[j], now) ==>
      && (Locked(m[k], now) ==> Locked(m[j], now))
      && (Locked(m[j], now) == Locked(m[k], now) ==> m[k].lastSeen <= m[j].lastSeen)
  {
    var c :| MadeRoom(opt, m, now, c) && r == c[key := BumpEntry(opt, FRESH, threshold, now)];
    var u := Unexpired(opt, m, now);
    assert k in u && k !in c && Victim(u, now, k);
    forall j | j in m && !Expired(opt, m[j], now)
      ensures (Locked(m[k], now) ==> Locked(m[j], now)) && (Locked(m[j], now) == Locked(m[k], now) ==> m[k].lastSeen <= m[j].lastSeen)
    {
      assert j in u;
    }
  }

  // ---------- the limiter ----------

  function ComboKey(username: string, bucket: string): string { username + "@" + bucket }

  function LockEnd(m: Table, key: string): int {
    if key in m then m[key].lockedUntil else 0
  }

  function Max(a: int, b: int): int { if a >= b then a else b }

  /** Denied while either key is locked, for as long as the longer lock lasts. */
  function Decide(ip: Table, combo: Table, username: string, bucket: string, now: nat): Decision {
    var until := Max(LockEnd(ip, bucket), LockEnd(combo, ComboKey(username, bucket)));
    if now < until then Decision(false, until - now) else Decision(true, 0)
  }

  class Limiter {
    const opt: Options
    var ip: Table
    var combo: Table

    constructor (opt: Options)
      ensures this.opt == opt && ip == map[] && combo == map[]
    {
      this.opt := opt;
      ip, combo := map[], map[];
    }

    method Allow(username: string, bucket: string, now: nat) returns (d: Decision)
      ensures d == Decide(ip, combo, username, bucket, now)
    {
      var retry, locked := 0, false;
      var found: seq<Entry> := [];
      if bucket in ip { found := found + [ip[bucket]]; }
      if ComboKey(username, bucket) in combo { found := found + [combo[ComboKey(username, bucket)]]; }
      for i := 0 to |found|
        invariant locked <==> exists j :: 0 <= j < i && now < found[j].lockedUntil
        invariant retry >= 0
        invariant forall j :: 0 <= j < i && now < found[j].lockedUntil ==> found[j].lockedUntil - now <= retry
        invariant retry > 0 ==> exists j :: 0 <= j < i && now < found[j].lockedUntil && found[j].lockedUntil - now == retry
      {
        if now < found[i].lockedUntil {
          locked := true;
          if found[i].lockedUntil - now > retry { retry := found[i].lockedUntil - now; }
        }
      }
      d := Decision(!locked, retry);
    }

    method RecordFailure(username: string, bucket: string, now: nat)
      requires ValidOptions(opt)
      modifies this`ip, this`combo
      ensures Bumped(opt, old(ip), bucket, opt.maxFailuresIP, now, ip)
      ensures Bumped(opt, old(combo), ComboKey(username, bucket), opt.maxFailuresUser, now, combo)
    {
      ip := Bump(ip, bucket, opt.maxFailuresIP, now);
      combo := Bump(combo, ComboKey(username, bucket), opt.maxFailuresUser, now);
    }

    method RecordSuccess(username: string, bucket: string)
      modifies this`ip, this`combo
      ensures ip == old(ip) - {bucket}
      ensures combo == old(combo) - {ComboKey(username, bucket)}
    {
      ip := ip - {bucket};
      combo := combo - {ComboKey(username, bucket)};
    }

    /** One tick of the janitor. */
    method Sweep(now: nat)
      modifies this`ip, this`combo
      ensures ip == Unexpired(opt, old(ip), now)
      ensures combo == Unexpired(opt, old(combo), now)
    {
      ip := DropExpired(ip, now);
      combo := DropExpired(combo, now);
    }

    method Bump(m: Table, key: string, threshold: int, now: nat) returns (r: Table)
      requires ValidOptions(opt)
      ensures Bumped(opt, m, key, threshold, now, r)
    {
      r := m;
      if key == "" || threshold <= 0 { return; }
      var e := FRESH;
      if key in m {
        e := m[key];
      } else {
        r := EnsureCapacity(m, now);
      }
      ghost var room := r;
      ghost var e0 := e;
      if opt.failureWindow > 0 && e.lastSeen != 0 && now - e.lastSeen > opt.failureWindow {
        e := e.(failures := 0, lockedUntil := 0);
      }
      e := e.(failures := e.failures + 1, lastSeen := now);
      if e.failures >= threshold {
        var d := ComputeBackoff(e.failures - threshold);
        e := e.(lockedUntil := now + d);
      }
      assert e == BumpEntry(opt, e0, threshold, now);
      r := r[key := e];
    }

    method ComputeBackoff(n: nat) returns (d: int)
      requires ValidOptions(opt)
      ensures d == Backoff(opt, n)
    {
      d := opt.lockoutBase;
      if d <= 0 { d := MINUTE; }
      for i := 0 to n
        invariant Int64(d)
        invariant Doubled(d, opt.lockoutMax, n - i) == Backoff(opt, n)
      {
        if opt.lockoutMax > 0 && d >= opt.lockoutMax {
          return opt.lockoutMax;
        }
        d := Shl1(d);
      }
      if opt.lockoutMax > 0 && d > opt.lockoutMax {
        d := opt.lockoutMax;
      }
    }

    method EnsureCapacity(m: Table, now: nat) returns (r: Table)
      ensures MadeRoom(opt, m, now, r)
    {
      r := m;
      if opt.maxEntries <= 0 || |m| < opt.maxEntries { return; }
      r := DropExpired(m, now);
      if |r| < opt.maxEntries { return; }
      var victim := OldestEntry(r, now);
      r := r - {victim};
    }

    /** The scan for the entry to evict, over the map in any order. */
    method OldestEntry(u: Table, now: nat) returns (victim: string)
      requires u != map[]
      ensures Victim(u, now, victim)
    {
      var unlockedKey, oldestKey := "", "";
      var haveUnlocked, haveOldest := false, false;
      var todo := u.Keys;
      while todo != {}
        invariant todo <= u.Keys
        invariant haveOldest || todo == u.Keys
        invariant haveOldest ==> OldestSoFar(u, todo, oldestKey)
        invariant OldestUnlockedSoFar(u, now, todo, haveUnlocked, unlockedKey)
        decreases |todo|
      {
        var k :| k in todo;
        todo := todo - {k};
        if !haveOldest || u[k].lastSeen < u[oldestKey].lastSeen {
          oldestKey, haveOldest := k, true;
        }
        if !Locked(u[k], now) && (!haveUnlocked || u[k].lastSeen < u[unlockedKey].lastSeen) {
          unlockedKey, haveUnlocked := k, true;
        }
      }
      assert u.Keys != {};
      victim := if haveUnlocked then unlockedKey else oldestKey;
    }

    method DropExpired(m: Table, now: nat) returns (r: Table)
      ensures r == Unexpired(opt, m, now)
    {
      r := m;
      var todo := m.Keys;
      while todo != {}
        invariant todo <= m.Keys
        invariant r.Keys == set k | k in m && (k in todo || !Expired(opt, m[k], now))
        invariant forall k :: k in r ==> r[k] == m[k]
        decreases |todo|
      {
        var k :| k in todo;
        if Expired(opt, m[k], now) {
          r := r - {k};
        }
        todo := todo - {k};
      }
    }
  }
}
