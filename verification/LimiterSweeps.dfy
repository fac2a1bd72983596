/** The janitor is invisible: a limiter that sweeps at arbitrary moments answers like one that never
    does, even with the cap active (apps/api/internal/ratelimit/login.go). */
module LimiterSweeps {
  import opened Common
  import opened LoginLimiter
  import opened LimiterRuns

  /** Two tables that differ only in lapsed entries. */
  ghost predicate Similar(opt: Options, a: Table, b: Table, now: nat) {
    Unexpired(opt, a, now) == Unexpired(opt, b, now) && WithinCap(opt, a) && WithinCap(opt, b)
  }

  lemma SimilarLater(opt: Options, a: Table, b: Table, now: nat, later: nat)
    requires Similar(opt, a, b, now) && now <= later
    ensures Similar(opt, a, b, later)
  {
    LaterUnexpired(opt, a, now, later);
    LaterUnexpired(opt, b, now, later);
  }

  lemma LaterUnexpired(opt: Options, a: Table, now: nat, later: nat)
    requires now <= later
    ensures Unexpired(opt, a, later) == Unexpired(opt, Unexpired(opt, a, now), later)
  {
    var u, v := Unexpired(opt, a, now), Unexpired(opt, a, later);
    forall k | k in v ensures k in u {}
    assert v.Keys == Unexpired(opt, u, later).Keys;
  }

  /** Making room in two similar tables can end in similar tables. */
  lemma RoomSimilar(opt: Options, a: Table, b: Table, now: nat, ra: Table) returns (rb: Table)
    requires Similar(opt, a, b, now) && MadeRoom(opt, a, now, ra)
    requires opt.maxEntries > 0 ==> |a| >= opt.maxEntries ==> |b| >= opt.maxEntries || |Unexpired(opt, a, now)| < opt.maxEntries
    ensures MadeRoom(opt, b, now, rb)
    ensures Unexpired(opt, ra, now) == Unexpired(opt, rb, now)
  {
    var u := Unexpired(opt, a, now);
    LaterUnexpired(opt, a, now, now);
    if opt.maxEntries <= 0 || |b| < opt.maxEntries {
      rb := b;
    } else if |u| < opt.maxEntries {
      rb := u;
    } else {
      var k :| Victim(u, now, k) && ra == u - {k};
      rb := ra;
    }
  }

  lemma UnexpiredUpdate(opt: Options, m: Table, key: string, e: Entry, now: nat)
    requires e.lastSeen == now
    ensures Unexpired(opt, m[key := e], now) == Unexpired(opt, m, now)[key := e]
  {
    var a, b := Unexpired(opt, m[key := e], now), Unexpired(opt, m, now)[key := e];
    assert a.Keys == b.Keys;
    assert forall k :: k in a ==> a[k] == b[k];
  }

  /** A lapsed entry has the same effect as no entry. */
  lemma LapsedIsFresh(opt: Options, e: Entry, threshold: int, now: nat)
    requires ValidOptions(opt) && threshold > 0 && 0 < e.lastSeen && Expired(opt, e, now)
    ensures BumpEntry(opt, e, threshold, now) == BumpEntry(opt, FRESH, threshold, now)
  {}

  ghost predicate Seen(m: Table) { forall k :: k in m ==> m[k].lastSeen > 0 }

  /** The limiter that swept and the one that did not stay similar under a failure of any key, with
      the cap active: whatever the one does, the other can match. */
  lemma BumpSimilar(opt: Options, a: Table, b: Table, key: string, threshold: int, now: nat, ra: Table)
    returns (rb: Table)
    requires ValidOptions(opt) && now > 0 && Seen(a) && Seen(b)
    requires Similar(opt, a, b, now) && Bumped(opt, a, key, threshold, now, ra)
    ensures Bumped(opt, b, key, threshold, now, rb) && Similar(opt, ra, rb, now)
  {
    BumpKeepsCap(opt, a, key, threshold, now, ra);
    var ua, ub := Unexpired(opt, a, now), Unexpired(opt, b, now);
    if key == "" || threshold <= 0 {
      rb := b;
    } else {
      var renewed := BumpEntry(opt, FRESH, threshold, now);
      if key in ua {
        assert key in ub;
        rb := b[key := BumpEntry(opt, b[key], threshold, now)];
        UnexpiredUpdate(opt, a, key, BumpEntry(opt, a[key], threshold, now), now);
        UnexpiredUpdate(opt, b, key, BumpEntry(opt, b[key], threshold, now), now);
      } else {
        assert key !in ub;
        var ca := RoomUsed(opt, a, key, threshold, now, ra);
        var cb: Table;
        if key in b {
          LapsedIsFresh(opt, b[key], threshold, now);
          Subset(ub.Keys, b.Keys);
          assert ub.Keys != b.Keys;
          assert MadeRoom(opt, a, now, ca) || ca == a;
          LaterUnexpired(opt, a, now, now);
          cb := b;
        } else {
          if key in a {
            Subset(ua.Keys, a.Keys);
            assert ua.Keys != a.Keys;
            cb := if opt.maxEntries <= 0 || |b| < opt.maxEntries then b else ub;
            LaterUnexpired(opt, b, now, now);
          } else {
            cb := RoomSimilar(opt, a, b, now, ca);
          }
          assert MadeRoom(opt, b, now, cb);
        }
        rb := cb[key := renewed];
        assert Bumped(opt, b, key, threshold, now, rb);
        UnexpiredUpdate(opt, ca, key, renewed, now);
        UnexpiredUpdate(opt, cb, key, renewed, now);
      }
    }
    BumpKeepsCap(opt, b, key, threshold, now, rb);
  }

  /** The table a bump of an absent or lapsed key wrote the fresh entry into. */
  lemma RoomUsed(opt: Options, a: Table, key: string, threshold: int, now: nat, ra: Table) returns (ca: Table)
    requires ValidOptions(opt) && now > 0 && threshold > 0 && key != "" && Seen(a)
    requires key !in Unexpired(opt, a, now) && Bumped(opt, a, key, threshold, now, ra)
    ensures ra == ca[key := BumpEntry(opt, FRESH, threshold, now)]
    ensures if key in a then ca == a else MadeRoom(opt, a, now, ca)
  {
    if key in a {
      LapsedIsFresh(opt, a[key], threshold, now);
      ca := a;
    } else {
      ca :| MadeRoom(opt, a, now, ca) && ra == ca[key := BumpEntry(opt, FRESH, threshold, now)];
    }
  }

  lemma SimilarRemove(opt: Options, a: Table, b: Table, key: string, now: nat)
    requires Similar(opt, a, b, now)
    ensures Similar(opt, a - {key}, b - {key}, now)
  {
    UnexpiredRemove(opt, a, key, now);
    UnexpiredRemove(opt, b, key, now);
  }

  lemma UnexpiredRemove(opt: Options, a: Table, key: string, now: nat)
    ensures Unexpired(opt, a - {key}, now) == Unexpired(opt, a, now) - {key}
    ensures |a - {key}| <= |a|
  {
    var rest := a - {key};
    var left, right := Unexpired(opt, rest, now), Unexpired(opt, a, now) - {key};
    forall k ensures k in left <==> k in right {
      assert k in rest <==> k in a && k != key;
    }
    forall k | k in left ensures left[k] == right[k] {
      assert rest[k] == a[k];
    }
    Subset(rest.Keys, a.Keys);
  }

  lemma SimilarSwept(opt: Options, a: Table, b: Table, now: nat)
    requires Similar(opt, a, b, now)
    ensures Similar(opt, Unexpired(opt, a, now), b, now)
  {
    LaterUnexpired(opt, a, now, now);
  }

  ghost predicate SimilarStates(opt: Options, s: State, t: State, now: nat) {
    Similar(opt, s.ip, t.ip, now) && Similar(opt, s.combo, t.combo, now)
  }

  ghost predicate SeenState(s: State) { Seen(s.ip) && Seen(s.combo) }

  lemma BumpKeepsSeen(opt: Options, m: Table, key: string, threshold: int, now: nat, r: Table)
    requires ValidOptions(opt) && now > 0 && Seen(m) && Bumped(opt, m, key, threshold, now, r)
    ensures Seen(r)
  {
    BumpTouchesOthersOnlyByEviction(opt, m, key, threshold, now, r);
  }

  lemma StepKeepsSeen(opt: Options, s: State, it: Item, s': State)
    requires ValidOptions(opt) && it.now > 0 && SeenState(s) && Step(opt, s, it, s')
    ensures SeenState(s')
  {
    if it.op.Failure? {
      BumpKeepsSeen(opt, s.ip, it.op.bucket, opt.maxFailuresIP, it.now, s'.ip);
      BumpKeepsSeen(opt, s.combo, ComboKey(it.op.username, it.op.bucket), opt.maxFailuresUser, it.now, s'.combo);
    }
  }

  /** One step: the other limiter can match it, and it need not take part in a sweep. */
  lemma StepSimilar(opt: Options, s: State, t: State, it: Item, s': State) returns (t': State)
    requires ValidOptions(opt) && it.now > 0 && SeenState(s) && SeenState(t)
    requires SimilarStates(opt, s, t, it.now) && Step(opt, s, it, s')
    ensures it.op.Sweep? ==> t' == t
    ensures !it.op.Sweep? ==> Step(opt, t, it, t')
    ensures SimilarStates(opt, s', t', it.now)
  {
    match it.op
    case Failure(u, b) =>
      var ip := BumpSimilar(opt, s.ip, t.ip, b, opt.maxFailuresIP, it.now, s'.ip);
      var combo := BumpSimilar(opt, s.combo, t.combo, ComboKey(u, b), opt.maxFailuresUser, it.now, s'.combo);
      t' := State(ip, combo);
    case Success(u, b) =>
      SimilarRemove(opt, s.ip, t.ip, b, it.now);
      SimilarRemove(opt, s.combo, t.combo, ComboKey(u, b), it.now);
      t' := State(t.ip - {b}, t.combo - {ComboKey(u, b)});
    case Sweep =>
      SimilarSwept(opt, s.ip, t.ip, it.now);
      SimilarSwept(opt, s.combo, t.combo, it.now);
      t' := t;
  }

  lemma SimilarDecide(opt: Options, s: State, t: State, username: string, bucket: string, now: nat)
    requires SimilarStates(opt, s, t, now)
    ensures Decide(s.ip, s.combo, username, bucket, now) == Decide(t.ip, t.combo, username, bucket, now)
  {
    LockSurvives(opt, s.ip, bucket, now);
    LockSurvives(opt, t.ip, bucket, now);
    LockSurvives(opt, s.combo, ComboKey(username, bucket), now);
    LockSurvives(opt, t.combo, ComboKey(username, bucket), now);
  }

  lemma LockSurvives(opt: Options, m: Table, key: string, now: nat)
    ensures now < LockEnd(m, key) ==> LockEnd(m, key) == LockEnd(Unexpired(opt, m, now), key)
    ensures now < LockEnd(Unexpired(opt, m, now), key) ==> LockEnd(m, key) == LockEnd(Unexpired(opt, m, now), key)
  {}

  // ---------- traces ----------

  /** The log without the janitor's work. */
  function Unswept(log: Log): Log
    decreases |log|
  {
    if log == [] then []
    else Unswept(log[..|log| - 1]) + if log[|log| - 1].op.Sweep? then [] else [log[|log| - 1]]
  }

  /** Where the unswept log stands after n items of the log. */
  function Kept(log: Log, n: nat): nat
    requires n <= |log|
  {
    |Unswept(log[..n])|
  }

  lemma {:induction false} KeptGrows(log: Log, i: nat, n: nat)
    requires i <= n <= |log|
    ensures Kept(log, i) <= Kept(log, n) && Unswept(log[..i]) <= Unswept(log[..n])
    decreases n
  {
    if i < n {
      assert log[..n][..n - 1] == log[..n - 1];
      KeptGrows(log, i, n - 1);
    }
  }

  lemma {:induction false} KeptNext(log: Log, n: nat)
    requires n < |log|
    ensures Unswept(log[..n + 1]) == Unswept(log[..n]) + if log[n].op.Sweep? then [] else [log[n]]
  {
    assert log[..n + 1][..n] == log[..n];
  }

  /** After every item both limiters give every caller the same answer, now and until the next item. */
  ghost predicate SameAnswers(log: Log, states: seq<State>, ts: seq<State>)
    requires |states| == |log| + 1 && |ts| > |Unswept(log)|
  {
    forall i, username, bucket, now :: 0 <= i <= |log| && Clock(log, i) <= now ==>
      AnswersAlike(log, states, ts, i, username, bucket, now)
  }

  ghost predicate AnswersAlike(log: Log, states: seq<State>, ts: seq<State>, i: nat, username: string, bucket: string, now: nat)
    requires |states| == |log| + 1 && |ts| > |Unswept(log)| && i <= |log|
  {
    KeptGrows(log, i, |log|);
    assert log[..|log|] == log;
    Decide(states[i].ip, states[i].combo, username, bucket, now) ==
      Decide(ts[Kept(log, i)].ip, ts[Kept(log, i)].combo, username, bucket, now)
  }

  /** ts follows states through the first n items of the log. */
  ghost predicate Follows(opt: Options, log: Log, states: seq<State>, ts: seq<State>, n: nat)
    requires n <= |log| && |states| > n && |ts| > Kept(log, n)
  {
    forall i :: 0 <= i <= n ==> Kept(log, i) < |ts| && Matched(opt, states[i], ts[Kept(log, i)], Clock(log, i))
  }

  ghost predicate Matched(opt: Options, s: State, t: State, now: nat) {
    SimilarStates(opt, s, t, now) && SeenState(s) && SeenState(t)
  }

  lemma MatchedLater(opt: Options, s: State, t: State, now: nat, later: nat)
    requires Matched(opt, s, t, now) && now <= later
    ensures Matched(opt, s, t, later)
  {
    SimilarLater(opt, s.ip, t.ip, now, later);
    SimilarLater(opt, s.combo, t.combo, now, later);
  }

  lemma FollowsAnswers(opt: Options, log: Log, states: seq<State>, ts: seq<State>)
    requires |states| == |log| + 1 && |ts| > |Unswept(log)|
    requires |ts| > Kept(log, |log|) && Follows(opt, log, states, ts, |log|)
    ensures SameAnswers(log, states, ts)
  {
    forall i, username, bucket, now | 0 <= i <= |log| && Clock(log, i) <= now
      ensures AnswersAlike(log, states, ts, i, username, bucket, now)
    {
      KeptGrows(log, i, |log|);
      assert Matched(opt, states[i], ts[Kept(log, i)], Clock(log, i));
      MatchedLater(opt, states[i], ts[Kept(log, i)], Clock(log, i), now);
      SimilarDecide(opt, states[i], ts[Kept(log, i)], username, bucket, now);
    }
  }

  /** One step of the swept run, matched. */
  lemma MatchStep(opt: Options, p: State, q: State, it: Item, s: State) returns (t: State)
    requires ValidOptions(opt) && it.now > 0 && Matched(opt, p, q, it.now) && Step(opt, p, it, s)
    ensures it.op.Sweep? ==> t == q
    ensures !it.op.Sweep? ==> Step(opt, q, it, t)
    ensures Matched(opt, s, t, it.now)
  {
    t := StepSimilar(opt, p, q, it, s);
    StepKeepsSeen(opt, p, it, s);
    if !it.op.Sweep? { StepKeepsSeen(opt, q, it, t); }
  }

  lemma FollowsGrows(opt: Options, log: Log, states: seq<State>, ts: seq<State>, n: nat, ts': seq<State>)
    requires n < |log| && |states| > n + 1 && |ts| > Kept(log, n) && Follows(opt, log, states, ts, n)
    requires ts <= ts' && |ts'| > Kept(log, n + 1)
    requires Matched(opt, states[n + 1], ts'[Kept(log, n + 1)], log[n].now)
    ensures Follows(opt, log, states, ts', n + 1)
  {
    forall i | 0 <= i <= n + 1
      ensures Kept(log, i) < |ts'| && Matched(opt, states[i], ts'[Kept(log, i)], Clock(log, i))
    {
      if i <= n { assert Kept(log, i) < |ts| && Matched(opt, states[i], ts[Kept(log, i)], Clock(log, i)); }
    }
  }

  lemma FollowsStart(opt: Options, log: Log, states: seq<State>, ts: seq<State>)
    requires |states| > 0 && |ts| > 0 && states[0] == ts[0] == EMPTY
    ensures Follows(opt, log, states, ts, 0)
  {
    assert log[..0] == [];
    assert Matched(opt, EMPTY, EMPTY, 0);
  }

  /** What matched after n items still does when the next item is due. */
  lemma FollowsLast(opt: Options, log: Log, states: seq<State>, ts: seq<State>, n: nat)
    requires Timed(log) && n < |log| && |states| > n && |ts| > Kept(log, n) && Follows(opt, log, states, ts, n)
    ensures Matched(opt, states[n], ts[Kept(log, n)], log[n].now)
  {
    assert Matched(opt, states[n], ts[Kept(log, n)], Clock(log, n));
    MatchedLater(opt, states[n], ts[Kept(log, n)], Clock(log, n), log[n].now);
  }

  lemma UnsweptStep(opt: Options, log: Log, states: seq<State>, ts: seq<State>, n: nat) returns (t: State)
    requires ValidOptions(opt) && Timed(log) && n < |log| && |states| > n + 1 && Step(opt, states[n], log[n], states[n + 1])
    requires |ts| > Kept(log, n) && Follows(opt, log, states, ts, n)
    ensures if log[n].op.Sweep? then t == ts[Kept(log, n)] else Step(opt, ts[Kept(log, n)], log[n], t)
    ensures Matched(opt, states[n + 1], t, log[n].now)
  {
    FollowsLast(opt, log, states, ts, n);
    t := MatchStep(opt, states[n], ts[Kept(log, n)], log[n], states[n + 1]);
  }

  function Extended(log: Log, n: nat, ts: seq<State>, t: State): seq<State>
    requires n < |log|
  {
    if log[n].op.Sweep? then ts else ts + [t]
  }

  lemma ExtendedRuns(opt: Options, log: Log, n: nat, ts: seq<State>, t: State)
    requires ValidOptions(opt) && n < |log| && Run(opt, Unswept(log[..n]), ts)
    requires !log[n].op.Sweep? ==> Step(opt, ts[Kept(log, n)], log[n], t)
    ensures Run(opt, Unswept(log[..n + 1]), Extended(log, n, ts, t))
  {
    KeptNext(log, n);
    if !log[n].op.Sweep? { RunExtends(opt, Unswept(log[..n]), ts, log[n], t); }
  }

  lemma ExtendedFollows(opt: Options, log: Log, states: seq<State>, n: nat, ts: seq<State>, t: State)
    requires n < |log| && |states| > n + 1 && |ts| == Kept(log, n) + 1 && Follows(opt, log, states, ts, n)
    requires log[n].op.Sweep? ==> t == ts[Kept(log, n)]
    requires Matched(opt, states[n + 1], t, log[n].now)
    ensures |Extended(log, n, ts, t)| > Kept(log, n + 1) && Follows(opt, log, states, Extended(log, n, ts, t), n + 1)
  {
    KeptNext(log, n);
    FollowsGrows(opt, log, states, ts, n, Extended(log, n, ts, t));
  }

  lemma UnsweptNext(opt: Options, log: Log, states: seq<State>, ts: seq<State>, n: nat) returns (ts': seq<State>)
    requires ValidOptions(opt) && Timed(log) && n < |log| && |states| > n + 1 && Step(opt, states[n], log[n], states[n + 1])
    requires Run(opt, Unswept(log[..n]), ts) && Follows(opt, log, states, ts, n)
    ensures Run(opt, Unswept(log[..n + 1]), ts') && Follows(opt, log, states, ts', n + 1)
  {
    var t := UnsweptStep(opt, log, states, ts, n);
    ExtendedRuns(opt, log, n, ts, t);
    ExtendedFollows(opt, log, states, n, ts, t);
    ts' := Extended(log, n, ts, t);
  }

  lemma {:induction false} UnsweptRun(opt: Options, log: Log, states: seq<State>, n: nat) returns (ts: seq<State>)
    requires ValidOptions(opt) && Run(opt, log, states) && Timed(log) && n <= |log|
    ensures Run(opt, Unswept(log[..n]), ts) && Follows(opt, log, states, ts, n)
  {
    if n == 0 {
      ts := [EMPTY];
      FollowsStart(opt, log, states, ts);
    } else {
      var before := UnsweptRun(opt, log, states, n - 1);
      RunStep(opt, log, states, n - 1);
      ts := UnsweptNext(opt, log, states, before, n - 1);
    }
  }

  lemma SweptStep(opt: Options, log: Log, states: seq<State>, ts: seq<State>, n: nat) returns (s: State)
    requires ValidOptions(opt) && Timed(log) && n < |log| && |states| > n && |ts| > Kept(log, n + 1) >= Kept(log, n)
    requires Follows(opt, log, states, ts, n)
    requires if log[n].op.Sweep? then Kept(log, n + 1) == Kept(log, n)
      else Step(opt, ts[Kept(log, n)], log[n], ts[Kept(log, n + 1)])
    ensures Step(opt, states[n], log[n], s) && Matched(opt, s, ts[Kept(log, n + 1)], log[n].now)
  {
    FollowsLast(opt, log, states, ts, n);
    var p, q, it := states[n], ts[Kept(log, n)], log[n];
    if it.op.Sweep? {
      s := State(Unexpired(opt, p.ip, it.now), Unexpired(opt, p.combo, it.now));
      SimilarSwept(opt, p.ip, q.ip, it.now);
      SimilarSwept(opt, p.combo, q.combo, it.now);
    } else {
      MatchedBack(opt, p, q, it.now);
      s := MatchStep(opt, q, p, it, ts[Kept(log, n + 1)]);
      MatchedBack(opt, ts[Kept(log, n + 1)], s, it.now);
    }
  }

  lemma UnsweptSteps(opt: Options, log: Log, ts: seq<State>, n: nat)
    requires ValidOptions(opt) && Run(opt, Unswept(log), ts) && n < |log|
    ensures |ts| > Kept(log, n + 1) >= Kept(log, n)
    ensures if log[n].op.Sweep? then Kept(log, n + 1) == Kept(log, n)
      else Step(opt, ts[Kept(log, n)], log[n], ts[Kept(log, n + 1)])
  {
    UnsweptIndex(log, n);
    if !log[n].op.Sweep? { RunStep(opt, Unswept(log), ts, Kept(log, n)); }
  }

  lemma UnsweptIndex(log: Log, n: nat)
    requires n < |log|
    ensures Kept(log, n) <= Kept(log, n + 1) <= |Unswept(log)|
    ensures if log[n].op.Sweep? then Kept(log, n + 1) == Kept(log, n)
      else Kept(log, n + 1) == Kept(log, n) + 1 && Unswept(log)[Kept(log, n)] == log[n]
  {
    assert log[..|log|] == log;
    KeptNext(log, n);
    KeptGrows(log, n + 1, |log|);
  }

  lemma PrefixRuns(opt: Options, log: Log, n: nat, states: seq<State>, s: State)
    requires ValidOptions(opt) && n < |log| && Run(opt, log[..n], states) && Step(opt, states[n], log[n], s)
    ensures Run(opt, log[..n + 1], states + [s])
  {
    assert log[..n + 1] == log[..n] + [log[n]];
    RunExtends(opt, log[..n], states, log[n], s);
  }

  lemma SweptFollows(opt: Options, log: Log, states: seq<State>, n: nat, ts: seq<State>, s: State)
    requires n < |log| && |states| == n + 1 && |ts| > Kept(log, n + 1) && |ts| > Kept(log, n) && Follows(opt, log, states, ts, n)
    requires Matched(opt, s, ts[Kept(log, n + 1)], log[n].now)
    ensures Follows(opt, log, states + [s], ts, n + 1)
  {
    FollowsSame(opt, log, states, states + [s], ts, n);
    FollowsGrows(opt, log, states + [s], ts, n, ts);
  }

  /** The run with the janitor that matches a run without. */
  lemma {:induction false} SweptRun(opt: Options, log: Log, ts: seq<State>, n: nat) returns (states: seq<State>)
    requires ValidOptions(opt) && Run(opt, Unswept(log), ts) && Timed(log) && n <= |log|
    ensures Run(opt, log[..n], states) && |ts| > Kept(log, n) && Follows(opt, log, states, ts, n)
  {
    if n == 0 {
      states := [EMPTY];
      FollowsStart(opt, log, states, ts);
    } else {
      var before := SweptRun(opt, log, ts, n - 1);
      UnsweptSteps(opt, log, ts, n - 1);
      var s := SweptStep(opt, log, before, ts, n - 1);
      states := before + [s];
      PrefixRuns(opt, log, n - 1, before, s);
      SweptFollows(opt, log, before, n - 1, ts, s);
    }
  }

  lemma MatchedBack(opt: Options, s: State, t: State, now: nat)
    requires Matched(opt, s, t, now)
    ensures Matched(opt, t, s, now)
  {}

  lemma FollowsSame(opt: Options, log: Log, states: seq<State>, states': seq<State>, ts: seq<State>, n: nat)
    requires n <= |log| && |states| > n && states <= states' && |ts| > Kept(log, n) && Follows(opt, log, states, ts, n)
    ensures Follows(opt, log, states', ts, n)
  {
    forall i | 0 <= i <= n
      ensures Kept(log, i) < |ts| && Matched(opt, states'[i], ts[Kept(log, i)], Clock(log, i))
    {
      assert Matched(opt, states[i], ts[Kept(log, i)], Clock(log, i));
    }
  }

  /** Sweeping is invisible, cap or no cap: for every run with sweeps at whatever moments there is one
      run without any that gives every caller the same answer at every moment, and for every run without
      there is, for every schedule of sweeps, one with them that does. */
  lemma SweepingIsInvisible(opt: Options, log: Log)
    requires ValidOptions(opt) && Timed(log)
    ensures forall states :: Run(opt, log, states) ==>
      exists ts :: Run(opt, Unswept(log), ts) && SameAnswers(log, states, ts)
    ensures forall ts :: Run(opt, Unswept(log), ts) ==>
      exists states :: Run(opt, log, states) && SameAnswers(log, states, ts)
  {
    assert log[..|log|] == log;
    forall states | Run(opt, log, states)
      ensures exists ts :: Run(opt, Unswept(log), ts) && SameAnswers(log, states, ts)
    {
      var ts := UnsweptRun(opt, log, states, |log|);
      FollowsAnswers(opt, log, states, ts);
    }
    forall ts | Run(opt, Unswept(log), ts)
      ensures exists states :: Run(opt, log, states) && SameAnswers(log, states, ts)
    {
      var states := SweptRun(opt, log, ts, |log|);
      FollowsAnswers(opt, log, states, ts);
    }
  }
}
