/** The descriptor registry: driver ownership and the single-flight, stale-while-revalidate cache
    (apps/api/internal/storage/registry.go). Concurrent callers are steps of a state machine. */
module DescriptorRegistry {
  import opened Common
  import opened ProviderNames

  const TTL: nat := 10

  type Chan = nat
  type Task = nat

  /** Descriptors as far as the cache is concerned: what they say, and which refresh computed them. */
  datatype Descriptors = Descriptors(items: seq<string>, origin: Origin)

  /** For which drivers a refresh was started, and how many invalidations there had been by then. */
  datatype Origin = Origin(key: string, epoch: nat)

  const NOTHING := Descriptors([], Origin("", 0))

  /** The fields under the registry's mutex, and the channels closed so far. */
  datatype Core = Core(
    cache: Descriptors, cacheKey: string, cacheAt: nat,
    refreshing: bool, refreshDone: Option<Chan>, closed: set<Chan>, nextChan: Chan)

  datatype Outcome = Warm(found: Descriptors, at: nat, stale: bool, starts: bool) | Wait(done: Option<Chan>) | Compute

  function StartRefresh(c: Core): Core {
    c.(refreshing := true, refreshDone := Some(c.nextChan), nextChan := c.nextChan + 1)
  }

  predicate StaleFor(c: Core, key: string, now: nat) {
    now - c.cacheAt >= TTL || c.cacheKey != key
  }

  /** The first locked section of DescriptorSnapshot. Waiting on no channel would block for ever. */
  function Begin(c: Core, key: string, now: nat): (Core, Outcome) {
    if c.cache.items != [] then
      var stale := StaleFor(c, key, now);
      var starts := stale && !c.refreshing;
      (if starts then StartRefresh(c) else c, Warm(c.cache, c.cacheAt, stale, starts))
    else if c.refreshing then (c, Wait(c.refreshDone))
    else (StartRefresh(c), Compute)
  }

  function Finished(c: Core, snapshot: Descriptors, key: string, now: nat): Core {
    var kept := if snapshot.items != [] then c.(cache := snapshot, cacheKey := key, cacheAt := now) else c;
    kept.(refreshing := false, refreshDone := None,
          closed := if c.refreshDone.Some? then c.closed + {c.refreshDone.value} else c.closed)
  }

  function Invalidated(c: Core): Core {
    c.(cache := NOTHING, cacheAt := 0, cacheKey := "")
  }

  function CacheDropped(c: Core): Core {
    c.(cache := NOTHING, cacheAt := 0)
  }

  // ---------- driver ownership ----------

  datatype RegisterError = IdRequired | AlreadyRegistered | DriverClaimed(driver: string)

  /** Every owned driver is listed by its owner, and every listed driver is owned by its lister, so no
      driver has two. */
  ghost predicate Owned(providers: map<string, seq<string>>, owner: map<string, string>) {
    && (forall d :: d in owner ==> owner[d] in providers && d in providers[owner[d]])
    && (forall p, d :: p in providers && d in providers[p] ==> d in owner && owner[d] == p)
  }

  lemma StaysOwned(providers: map<string, seq<string>>, owner: map<string, string>, owner': map<string, string>, id: string, drivers: seq<string>)
    requires Owned(providers, owner) && id !in providers && forall d :: d in drivers ==> d !in owner
    requires forall d :: d in owner' <==> d in owner || d in drivers
    requires forall d :: d in owner' ==> owner'[d] == if d in drivers then id else owner[d]
    ensures Owned(providers[id := drivers], owner')
  {}

  class Registry {
    var providers: map<string, seq<string>>
    var driverOwner: map<string, string>
    var core: Core

    constructor ()
      ensures Owned(providers, driverOwner)
      ensures core == Core(NOTHING, "", 0, false, None, {}, 0)
    {
      providers, driverOwner := map[], map[];
      core := Core(NOTHING, "", 0, false, None, {}, 0);
    }

    method Register(id: string, drivers: seq<string>) returns (error: Option<RegisterError>)
      requires Owned(providers, driverOwner)
      modifies this
      ensures Owned(providers, driverOwner)
      ensures error.Some? ==> providers == old(providers) && driverOwner == old(driverOwner) && core == old(core)
      ensures error == None ==> providers == old(providers)[id := drivers] && core == CacheDropped(old(core))
      ensures error == None <==>
        Trim(id) != "" && id !in old(providers) && forall d :: d in drivers ==> d !in old(driverOwner)
    {
      if Trim(id) == "" { return Some(IdRequired); }
      if id in providers { return Some(AlreadyRegistered); }
      for i := 0 to |drivers|
        invariant forall j :: 0 <= j < i ==> drivers[j] !in driverOwner
      {
        if drivers[i] in driverOwner { return Some(DriverClaimed(drivers[i])); }
      }
      providers := providers[id := drivers];
      for i := 0 to |drivers|
        invariant providers == old(providers)[id := drivers] && core == old(core)
        invariant forall d :: d in driverOwner <==> d in old(driverOwner) || d in drivers[..i]
        invariant forall d :: d in driverOwner ==> driverOwner[d] == if d in drivers[..i] then id else old(driverOwner)[d]
      {
        driverOwner := driverOwner[drivers[i] := id];
      }
      assert drivers[..|drivers|] == drivers;
      StaysOwned(old(providers), old(driverOwner), driverOwner, id, drivers);
      core := CacheDropped(core);
      return None;
    }

    method DescriptorSnapshot(key: string, now: nat) returns (o: Outcome)
      modifies this`core
      ensures (core, o) == Begin(old(core), key, now)
    {
      if core.cache.items != [] {
        var stale := now - core.cacheAt >= TTL || core.cacheKey != key;
        o := Warm(core.cache, core.cacheAt, stale, stale && !core.refreshing);
        if stale && !core.refreshing { core := StartRefresh(core); }
        return;
      }
      if core.refreshing { return Wait(core.refreshDone); }
      core := StartRefresh(core);
      return Compute;
    }

    method FinishRefresh(snapshot: Descriptors, key: string, now: nat)
      modifies this`core
      ensures core == Finished(old(core), snapshot, key, now)
    {
      if snapshot.items != [] {
        core := core.(cache := snapshot, cacheKey := key, cacheAt := now);
      }
      core := core.(refreshing := false);
      if core.refreshDone.Some? {
        core := core.(closed := core.closed + {core.refreshDone.value}, refreshDone := None);
      }
    }

    method InvalidateDescriptors()
      modifies this`core
      ensures core == Invalidated(old(core))
    {
      core := core.(cache := NOTHING, cacheAt := 0, cacheKey := "");
    }
  }

  // ---------- runs ----------

  datatype Answer = Answer(warm: bool, key: string, found: Descriptors, at: nat, stale: bool, now: nat)

  /** `refreshers` maps each task that will call finishRefresh to the origin of its result; `waiters`
      maps each blocked caller to its channel and key; `computing` maps each caller that refreshes for
      itself to its key. */
  datatype System = System(
    core: Core, now: nat, epoch: nat,
    refreshers: map<Task, Origin>, waiters: map<Task, (Option<Chan>, string)>, computing: map<Task, string>,
    answers: seq<Answer>)

  const START := System(Core(NOTHING, "", 0, false, None, {}, 0), 0, 0, map[], map[], map[], [])

  datatype Event =
    | Tick
    | Call(task: Task, key: string)
    | Finish(task: Task, items: seq<string>)
    | Wake(task: Task)
    | Cancel(task: Task)
    | Read(task: Task)
    | Invalidate
    | Register

  /** The answer to a caller that waited or refreshed: the cache as it is by then. */
  function Late(s: System, key: string): Answer {
    Answer(false, key, s.core.cache, s.core.cacheAt, s.core.cache.items == [], s.now)
  }

  ghost predicate Next(s: System, e: Event, s': System) {
    match e
    case Tick => s' == s.(now := s.now + 1)
    case Call(t, key) =>
      t !in s.refreshers && t !in s.waiters && t !in s.computing &&
      var (core, o) := Begin(s.core, key, s.now);
      var s1 := s.(core := core);
      s' == (match o
        case Warm(found, at, stale, starts) =>
          s1.(answers := s.answers + [Answer(true, key, found, at, stale, s.now)],
              refreshers := if starts then s.refreshers[t := Origin(key, s.epoch)] else s.refreshers)
        case Wait(done) => s1.(waiters := s.waiters[t := (done, key)])
        case Compute => s1.(refreshers := s.refreshers[t := Origin(key, s.epoch)], computing := s.computing[t := key]))
    case Finish(t, items) =>
      t in s.refreshers &&
      s' == s.(core := Finished(s.core, Descriptors(items, s.refreshers[t]), s.refreshers[t].key, s.now),
               refreshers := s.refreshers - {t})
    case Wake(t) =>
      t in s.waiters && s.waiters[t].0.Some? && s.waiters[t].0.value in s.core.closed &&
      s' == s.(waiters := s.waiters - {t}, answers := s.answers + [Late(s, s.waiters[t].1)])
    case Cancel(t) => t in s.waiters && s' == s.(waiters := s.waiters - {t})
    case Read(t) =>
      t in s.computing && t !in s.refreshers &&
      s' == s.(computing := s.computing - {t}, answers := s.answers + [Late(s, s.computing[t])])
    case Invalidate => s' == s.(core := Invalidated(s.core), epoch := s.epoch + 1)
    case Register => s' == s.(core := CacheDropped(s.core))
  }

  /** Single flight. */
  ghost predicate SingleFlight(s: System) {
    && (s.core.refreshing <==> s.core.refreshDone.Some?)
    && (if s.core.refreshing then exists t :: s.refreshers.Keys == {t} else s.refreshers == map[])
  }

  /** The open channel is new, and a captured channel is open with its refresh under way, or closed. */
  ghost predicate ChannelsOK(s: System) {
    && (s.core.refreshDone.Some? ==> s.core.refreshDone.value < s.core.nextChan && s.core.refreshDone.value !in s.core.closed)
    && (forall c :: c in s.core.closed ==> c < s.core.nextChan)
    && (forall t :: t in s.waiters ==>
          s.waiters[t].0.Some? && (s.waiters[t].0.value in s.core.closed || s.core.refreshDone == s.waiters[t].0))
  }

  /** A non-empty cache was computed for the key it is filed under. */
  ghost predicate CacheOK(s: System) {
    && (s.core.cache.items != [] ==> s.core.cache.origin.key == s.core.cacheKey)
    && s.core.cacheAt <= s.now
    && s.core.cache.origin.epoch <= s.epoch
    && forall t :: t in s.refreshers ==> s.refreshers[t].epoch <= s.epoch
  }

  /** A warm answer is marked stale exactly when it was computed for other drivers than the caller's or is
      as old as the TTL. */
  predicate AnswerOK(a: Answer) {
    a.warm ==>
      && a.found.items != [] && a.at <= a.now
      && (a.stale <==> a.found.origin.key != a.key || a.now - a.at >= TTL)
  }

  ghost predicate Inv(s: System) {
    SingleFlight(s) && ChannelsOK(s) && CacheOK(s) && forall i :: 0 <= i < |s.answers| ==> AnswerOK(s.answers[i])
  }

  lemma CallKeepsInv(s: System, t: Task, key: string, s': System)
    requires Inv(s) && Next(s, Call(t, key), s')
    ensures Inv(s')
  {
    if s'.refreshers != s.refreshers {
      assert s'.refreshers.Keys == {t};
    }
  }

  lemma FinishKeepsInv(s: System, t: Task, items: seq<string>, s': System)
    requires Inv(s) && Next(s, Finish(t, items), s')
    ensures Inv(s')
    ensures s.core.refreshDone.Some? && s.core.refreshDone.value !in s.core.closed
    ensures items == [] ==> s'.core.cache == s.core.cache
    ensures forall w :: w in s.waiters ==> s.waiters[w].0.Some? && s.waiters[w].0.value in s'.core.closed
  {
    assert s'.refreshers.Keys == {};
  }

  lemma StepKeepsInv(s: System, e: Event, s': System)
    requires Inv(s) && Next(s, e, s')
    ensures Inv(s')
  {
    match e
    case Call(t, key) => CallKeepsInv(s, t, key, s');
    case Finish(t, items) => FinishKeepsInv(s, t, items, s');
    case _ =>
  }

  ghost predicate IsRun(states: seq<System>, events: seq<Event>) {
    |states| == |events| + 1 && states[0] == START &&
    forall i :: 0 <= i < |events| ==> Next(states[i], events[i], states[i + 1])
  }

  /** In every reachable state there is at most one refresh, exactly when the flag and the channel say
      so, no waiter is left on a channel that nobody will close, and warm answers are right. */
  lemma {:induction false} RunKeepsInv(states: seq<System>, events: seq<Event>, n: nat)
    requires IsRun(states, events) && n < |states|
    ensures Inv(states[n])
  {
    if n > 0 {
      RunKeepsInv(states, events, n - 1);
      var s, s' := states[n - 1], states[n];
      StepKeepsInv(s, events[n - 1], s');
    }
  }

  /** In every run, each finish closes a channel that was open, wakes every waiter, and leaves a
      non-empty cache alone when it came back empty. */
  lemma FinishIsSafe(states: seq<System>, events: seq<Event>, n: nat, s: System, s': System)
    requires IsRun(states, events) && n < |events| && events[n].Finish? && s == states[n] && s' == states[n + 1]
    ensures s.core.refreshDone.Some? && s.core.refreshDone.value !in s.core.closed
    ensures s'.core.closed == s.core.closed + {s.core.refreshDone.value} && !s'.core.refreshing
    ensures forall w :: w in s.waiters ==> s.waiters[w].0.Some? && s.waiters[w].0.value in s'.core.closed
    ensures events[n].items == [] ==> s'.core.cache == s.core.cache
  {
    RunKeepsInv(states, events, n);
    FinishKeepsInv(s, events[n].task, events[n].items, s');
  }

  // ---------- what a call does ----------

  /** The one refresh in flight, and what it is for. */
  ghost predicate InFlight(s: System, t: Task, origin: Origin) {
    s.core.refreshing && s.refreshers == map[t := origin]
  }

  /** The call is answered at once, with what is cached. */
  predicate AnsweredWarm(s: System, key: string, s': System) {
    && |s'.answers| == |s.answers| + 1
    && var a := s'.answers[|s.answers|];
       a.warm && a.key == key && a.found == s.core.cache && a.at == s.core.cacheAt && a.now == s.now
  }

  /** In every run a call is answered at once exactly when something is cached. A stale answer always leaves
      a refresh in flight, one for the caller's own drivers if there was none; a fresh one starts nothing. */
  lemma WarmCallsExactly(states: seq<System>, events: seq<Event>, n: nat, t: Task, key: string)
    requires IsRun(states, events) && n < |events| && events[n] == Call(t, key)
    ensures var s, s' := states[n], states[n + 1];
      && (s.core.cache.items != [] <==> AnsweredWarm(s, key, s'))
      && (AnsweredWarm(s, key, s') ==>
            var stale := s'.answers[|s.answers|].stale;
            && (stale <==> s.core.cache.origin.key != key || s.now - s.core.cacheAt >= TTL)
            && (stale && !s.core.refreshing ==> InFlight(s', t, Origin(key, s.epoch)))
            && (stale && s.core.refreshing ==> s'.core.refreshing && s'.refreshers == s.refreshers)
            && (!stale ==> s'.core == s.core && s'.refreshers == s.refreshers))
  {
    RunKeepsInv(states, events, n);
    assert Next(states[n], events[n], states[n + 1]);
  }

  /** Otherwise it waits for the refresh in flight, or refreshes for its own drivers when there is none. */
  lemma ColdCallsExactly(states: seq<System>, events: seq<Event>, n: nat, t: Task, key: string)
    requires IsRun(states, events) && n < |events| && events[n] == Call(t, key) && states[n].core.cache.items == []
    ensures var s, s' := states[n], states[n + 1];
      && s'.answers == s.answers
      && (s.core.refreshing ==>
            t in s'.waiters && s'.waiters[t] == (s.core.refreshDone, key) && s'.core == s.core && s'.refreshers == s.refreshers)
      && (!s.core.refreshing ==> t in s'.computing && s'.computing[t] == key && InFlight(s', t, Origin(key, s.epoch)))
  {
    RunKeepsInv(states, events, n);
    assert Next(states[n], events[n], states[n + 1]);
  }

  // ---------- invalidation ----------

  /** Whatever is cached or being computed began after invalidation number `epoch`. */
  ghost predicate Since(s: System, epoch: nat) {
    && epoch <= s.epoch
    && (s.core.cache.items != [] ==> s.core.cache.origin.epoch >= epoch)
    && forall t :: t in s.refreshers ==> s.refreshers[t].epoch >= epoch
  }

  lemma StepKeepsSince(s: System, e: Event, s': System, epoch: nat)
    requires Since(s, epoch) && Next(s, e, s')
    ensures Since(s', epoch)
  {}

  /** An invalidation with no refresh under way is final: nothing computed before it is ever cached
      again. */
  lemma {:induction false} QuietInvalidationIsFinal(states: seq<System>, events: seq<Event>, j: nat, n: nat)
    requires IsRun(states, events) && j < n < |states| && events[j].Invalidate? && !states[j].core.refreshing
    ensures Since(states[n], states[j].epoch + 1)
  {
    if n == j + 1 {
      RunKeepsInv(states, events, j);
      assert Next(states[j], events[j], states[n]);
    } else {
      QuietInvalidationIsFinal(states, events, j, n - 1);
      StepKeepsSince(states[n - 1], events[n - 1], states[n], states[j].epoch + 1);
    }
  }

  /** With one under way it is not: from every reachable state with a refresh in flight, invalidating
      and then letting the refresh finish puts descriptors from before the invalidation back, and the
      next caller with that key gets them marked fresh. */
  lemma InFlightRefreshUndoesInvalidation(s: System, items: seq<string>, key: string)
    returns (t: Task, s1: System, s2: System)
    requires Inv(s) && s.core.refreshing && items != []
    ensures Next(s, Invalidate, s1) && Next(s1, Finish(t, items), s2)
    ensures s2.core.cache.items == items && s2.core.cache.origin.epoch < s2.epoch
    ensures key == s2.core.cacheKey ==> Begin(s2.core, key, s2.now).1 == Warm(s2.core.cache, s2.now, false, false)
  {
    t :| s.refreshers.Keys == {t};
    assert t in s.refreshers;
    s1 := s.(core := Invalidated(s.core), epoch := s.epoch + 1);
    s2 := s1.(core := Finished(s1.core, Descriptors(items, s.refreshers[t]), s.refreshers[t].key, s.now),
              refreshers := s1.refreshers - {t});
  }

  // ---------- callers that waited or refreshed ----------

  /** In every run, a caller that waited or refreshed and is not told "stale" is given descriptors for its own
      drivers exactly when the cache is filed under its key by then. */
  lemma LateAnswerHasOwnKeyExactly(states: seq<System>, events: seq<Event>, n: nat)
    requires IsRun(states, events) && n < |events| && (events[n].Wake? || events[n].Read?)
    ensures |states[n + 1].answers| == |states[n].answers| + 1
    ensures var a := states[n + 1].answers[|states[n].answers|];
            a.stale || (a.found.origin.key == a.key <==> states[n].core.cacheKey == a.key)
  {
    RunKeepsInv(states, events, n);
    assert Next(states[n], events[n], states[n + 1]);
  }

  /** Between `m` and `n` no refresh came back with anything. */
  ghost predicate NotRefilled(events: seq<Event>, m: nat, n: nat)
    requires n <= |events|
  {
    forall i :: m <= i < n ==> !(events[i].Finish? && events[i].items != [])
  }

  ghost predicate Dropped(events: seq<Event>, m: nat, n: nat)
    requires n <= |events|
  {
    exists i :: m <= i < n && (events[i].Invalidate? || events[i].Register?)
  }

  lemma {:induction false} CacheStays(states: seq<System>, events: seq<Event>, m: nat, n: nat)
    requires IsRun(states, events) && m <= n < |states| && NotRefilled(events, m, n)
    ensures states[n].core.cache == if Dropped(events, m, n) then NOTHING else states[m].core.cache
    ensures !Dropped(events, m, n) ==>
      states[n].core.cacheKey == states[m].core.cacheKey && states[n].core.cacheAt == states[m].core.cacheAt
  {
    if m < n {
      CacheStays(states, events, m, n - 1);
      assert Next(states[n - 1], events[n - 1], states[n]);
      assert Dropped(events, m, n) <==> Dropped(events, m, n - 1) || events[n - 1].Invalidate? || events[n - 1].Register?;
    }
  }

  /** A refresh in flight stays the one in flight until it finishes. */
  lemma {:induction false} FlightUntilFinish(states: seq<System>, events: seq<Event>, a: nat, n: nat) returns (m: nat)
    requires IsRun(states, events) && a <= n < |states| && states[a].core.refreshing
    ensures a <= m <= n && (m < n ==> events[m].Finish?) && NotRefilled(events, a, m)
    ensures states[m].refreshers == states[a].refreshers && states[m].core.refreshing
    ensures states[m].core.refreshDone == states[a].core.refreshDone
  {
    if n == a {
      m := a;
    } else {
      m := FlightUntilFinish(states, events, a, n - 1);
      assert Next(states[n - 1], events[n - 1], states[n]);
      if m == n - 1 && !events[m].Finish? {
        m := n;
      }
    }
  }

  /** The answer to a call, given that the refresh the caller relied on finished with `items` at event `m`:
      unless a later refresh came back first, the caller is told "stale" exactly when that refresh was empty
      or its result has been dropped, and is given its result otherwise. */
  ghost predicate AnsweredBy(states: seq<System>, events: seq<Event>, m: nat, n: nat, items: seq<string>, origin: Origin, key: string)
    requires m < n < |events| && |states| == |events| + 1
  {
    var a := Late(states[n], key);
    && states[n + 1].answers == states[n].answers + [a]
    && (NotRefilled(events, m + 1, n) ==>
          && (a.stale <==> items == [] || Dropped(events, m + 1, n))
          && (!a.stale ==> a.found == Descriptors(items, origin)))
  }

  ghost predicate Waits(states: seq<System>, t: Task, j: nat, n: nat)
    requires n < |states|
  {
    forall i :: j < i <= n ==> t in states[i].waiters
  }

  lemma {:induction false} WaiterKeepsChannel(states: seq<System>, events: seq<Event>, t: Task, j: nat, n: nat)
    requires IsRun(states, events) && j < n < |states| && Waits(states, t, j, n)
    ensures states[n].waiters[t] == states[j + 1].waiters[t]
  {
    if n > j + 1 {
      WaiterKeepsChannel(states, events, t, j, n - 1);
      assert Next(states[n - 1], events[n - 1], states[n]);
    }
  }

  lemma StartsWaiting(s: System, t: Task, key: string, s': System)
    requires Inv(s) && Next(s, Call(t, key), s') && t in s'.waiters
    ensures s.core.refreshing && s.core.cache.items == [] && s'.waiters[t] == (s.core.refreshDone, key) && s'.core == s.core
    ensures s'.refreshers == s.refreshers && s.core.refreshDone.Some?
  {}

  lemma AnswerOfFinish(states: seq<System>, events: seq<Event>, m: nat, n: nat, key: string, origin: Origin)
    requires IsRun(states, events) && m < n < |events| && events[m].Finish?
    requires InFlight(states[m], events[m].task, origin) && states[m].core.cache.items == []
    requires states[n + 1].answers == states[n].answers + [Late(states[n], key)]
    ensures AnsweredBy(states, events, m, n, events[m].items, origin, key)
  {
    assert Next(states[m], events[m], states[m + 1]);
    if NotRefilled(events, m + 1, n) {
      CacheStays(states, events, m + 1, n);
    }
  }

  /** A waiter is woken by the refresh that was in flight when it called. So what it is given, when no later
      refresh comes back before it wakes and nothing drops the cache, is for its own drivers exactly when that
      refresh was started for them. */
  lemma WaiterIsAnsweredByFlight(states: seq<System>, events: seq<Event>, t: Task, key: string, j: nat, n: nat)
    returns (m: nat, origin: Origin)
    requires IsRun(states, events) && j < n < |events| && events[j] == Call(t, key) && events[n] == Wake(t)
    requires Waits(states, t, j, n)
    ensures j < m < n && events[m].Finish? && InFlight(states[j], events[m].task, origin)
    ensures AnsweredBy(states, events, m, n, events[m].items, origin, key)
  {
    RunKeepsInv(states, events, j);
    assert Next(states[j], events[j], states[j + 1]);
    StartsWaiting(states[j], t, key, states[j + 1]);
    WaiterKeepsChannel(states, events, t, j, n);
    m := FlightUntilFinish(states, events, j + 1, n);
    RunKeepsInv(states, events, m);
    assert Next(states[n], events[n], states[n + 1]);
    assert Next(states[m], events[m], states[m + 1]);
    CacheStays(states, events, j + 1, m);
    origin := states[m].refreshers[events[m].task];
    OnlyFlight(states[m], events[m].task);
    AnswerOfFinish(states, events, m, n, key, origin);
  }

  lemma OnlyFlight(s: System, t: Task)
    requires Inv(s) && t in s.refreshers
    ensures InFlight(s, t, s.refreshers[t])
  {
    var u :| s.refreshers.Keys == {u};
    assert t in {u};
  }

  ghost predicate Computes(states: seq<System>, t: Task, j: nat, n: nat)
    requires n < |states|
  {
    forall i :: j < i <= n ==> t in states[i].computing
  }

  lemma {:induction false} ComputerKeepsKey(states: seq<System>, events: seq<Event>, t: Task, j: nat, n: nat)
    requires IsRun(states, events) && j < n < |states| && Computes(states, t, j, n)
    ensures states[n].computing[t] == states[j + 1].computing[t]
  {
    if n > j + 1 {
      ComputerKeepsKey(states, events, t, j, n - 1);
      assert Next(states[n - 1], events[n - 1], states[n]);
    }
  }

  lemma StartsComputing(s: System, t: Task, key: string, s': System)
    requires Inv(s) && Next(s, Call(t, key), s') && t in s'.computing
    ensures s'.computing[t] == key && s'.core.refreshing && s'.core.cache.items == []
    ensures InFlight(s', t, Origin(key, s.epoch))
  {}

  /** A caller that refreshes for itself is answered by its own refresh: for its own drivers, unless another
      one comes back between its finish and its read. */
  lemma ComputerIsAnsweredByItself(states: seq<System>, events: seq<Event>, t: Task, key: string, j: nat, n: nat)
    returns (m: nat)
    requires IsRun(states, events) && j < n < |events| && events[j] == Call(t, key) && events[n] == Read(t)
    requires Computes(states, t, j, n)
    ensures j < m < n && events[m].Finish? && events[m].task == t
    ensures AnsweredBy(states, events, m, n, events[m].items, Origin(key, states[j].epoch), key)
  {
    RunKeepsInv(states, events, j);
    assert Next(states[j], events[j], states[j + 1]);
    StartsComputing(states[j], t, key, states[j + 1]);
    ComputerKeepsKey(states, events, t, j, n);
    m := FlightUntilFinish(states, events, j + 1, n);
    assert Next(states[n], events[n], states[n + 1]);
    assert Next(states[m], events[m], states[m + 1]);
    CacheStays(states, events, j + 1, m);
    AnswerOfFinish(states, events, m, n, key, Origin(key, states[j].epoch));
  }

  /** What a refresh came back with is served, to callers with its key as fresh until the TTL, as long as no
      later one comes back and nothing drops the cache. */
  lemma FinishedIsServed(states: seq<System>, events: seq<Event>, m: nat, n: nat, t: Task, key: string)
    requires IsRun(states, events) && m < n < |events| && events[m].Finish? && events[m].items != [] && events[n] == Call(t, key)
    requires NotRefilled(events, m + 1, n) && !Dropped(events, m + 1, n)
    ensures events[m].task in states[m].refreshers && AnsweredWarm(states[n], key, states[n + 1])
    ensures var a := states[n + 1].answers[|states[n].answers|];
      && a.found == Descriptors(events[m].items, states[m].refreshers[events[m].task]) && a.at == states[m].now
      && (a.stale <==> states[m].refreshers[events[m].task].key != key || states[n].now - states[m].now >= TTL)
  {
    assert Next(states[m], events[m], states[m + 1]);
    CacheStays(states, events, m + 1, n);
    WarmCallsExactly(states, events, n, t, key);
  }

  /** A waiter for other drivers than those being refreshed is given the others', marked not stale. */
  lemma WaiterMayGetOtherKey() returns (states: seq<System>, events: seq<Event>)
    ensures IsRun(states, events) && |events| == 4 && Waits(states, 1, 1, 3) && events[1] == Call(1, "y") && events[3] == Wake(1)
    ensures |states[4].answers| == 1 && !states[4].answers[0].stale
    ensures states[4].answers[0].found.origin.key != states[4].answers[0].key
  {
    var s0 := START;
    var s1 := s0.(core := StartRefresh(s0.core), refreshers := map[0 := Origin("x", 0)], computing := map[0 := "x"]);
    var s2 := s1.(waiters := map[1 := (Some(0), "y")]);
    var s3 := s2.(core := Finished(s2.core, Descriptors(["d"], Origin("x", 0)), "x", 0), refreshers := map[]);
    var s4 := s3.(waiters := map[], answers := [Answer(false, "y", s3.core.cache, 0, false, 0)]);
    states, events := [s0, s1, s2, s3, s4], [Call(0, "x"), Call(1, "y"), Finish(0, ["d"]), Wake(1)];
    assert s2.refreshers - {0} == map[];
    assert s3.waiters - {1} == map[];
    assert "x"[0] != "y"[0];
    assert Next(s0, events[0], s1) && Next(s1, events[1], s2) && Next(s2, events[2], s3) && Next(s3, events[3], s4);
  }
}
