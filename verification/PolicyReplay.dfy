/** A confirmed policy change that is sent again after it was applied
    (apps/api/internal/policy/http.go). */
module PolicyReplay {
  import opened Common
  import opened StoragePolicies
  import opened PolicyProtocol

  /** What a stale request must still prove to be answered with the policy in force. */
  predicate StillConfirmed(api: Api, username: string, request: Request, now: nat) {
    var c := request.confirmation;
    && c.token.Signed?
    && var p := c.token.payload;
       && p.username == username && p.cluster == api.cluster && request.version == Some(p.version)
       && Normalize(p.requested) == Normalize(request.policy) && now <= p.expires
       && (p.broadening ==> Phrases(api, c))
       && (p.enablesPool ==> c.poolPhrase == POOL_PHRASE)
  }

  /** An apply that is refused as stale is answered as done instead. */
  predicate Replayed(api: Api, s: Snapshot, username: string, request: Request, now: nat) {
    && Plan(api, s, username, request) == Err(Stale)
    && s.source == RuntimePolicy && !s.stale
    && Normalize(s.requested) == Normalize(request.policy) && s.changedBy == username
    && StillConfirmed(api, username, request, now)
  }

  // ---------- what challenges say ----------

  /** A challenge says of its plan what the plan says. */
  predicate Genuine(api: Api, p: Payload) {
    var plan := p.planHash;
    && p.username == plan.actor && p.cluster == api.cluster && p.version == plan.version
    && p.broadening == Broadens(plan.current, plan.effective)
    && p.enablesPool == (!plan.current.poolDelete && plan.effective.poolDelete)
  }

  lemma {:induction false} IssuedAreGenuine(api: Api, states: seq<System>, events: seq<Event>, n: nat, p: Payload)
    requires IsRun(api, states, events) && n < |states| && p in states[n].issued
    ensures Genuine(api, p)
  {
    if n == 0 {
      NothingIssuedAtFirst(api, states, events);
    } else if p in states[n - 1].issued {
      IssuedAreGenuine(api, states, events, n - 1, p);
    } else {
      IssuedByPlan(api, states[n - 1], events[n - 1], states[n], p);
    }
  }

  lemma NothingIssuedAtFirst(api: Api, states: seq<System>, events: seq<Event>)
    requires IsRun(api, states, events)
    ensures states[0].issued == {}
  {
    var config :| states[0] == Boot(api.ceiling, config);
  }

  lemma IssuedByPlan(api: Api, s: System, e: Event, s': System, p: Payload)
    requires Next(api, s, e, s') && p in s'.issued && p !in s.issued
    ensures Genuine(api, p)
  {
    assert e.CreatePlan?;
    var plan := Plan(api, s.snapshot, e.username, e.request);
    assert plan.Ok? && p == ChallengeFor(api, plan.value, s.now);
  }

  // ---------- the replay ----------

  /** Sending a request again once its write is observed: it is stale, so nothing is written, and it is
      answered as done exactly until its challenge expires. */
  lemma RetryIsReplayed(api: Api, states: seq<System>, events: seq<Event>, n: nat, i: nat)
    requires IsRun(api, states, events) && n < |states| && i < |states[n].writes|
    requires var s := states[n]; s.snapshot.source == RuntimePolicy && s.snapshot.version == Some(s.writes[i].stored)
    ensures var s, w := states[n], states[n].writes[i];
      && Plan(api, s.snapshot, w.username, w.request) == Err(Stale)
      && w.request.confirmation.token.Signed?
      && (Replayed(api, s.snapshot, w.username, w.request, s.now) <==> s.now <= w.request.confirmation.token.payload.expires)
  {
    RunKeepsInv(api, states, events, n);
    var s, w := states[n], states[n].writes[i];
    assert WriteOK(api, s, w);
    IssuedAreGenuine(api, states, events, n, w.request.confirmation.token.payload);
    NormalizeIdempotent(w.request.policy);
    assert SnapshotOK(api, s);
  }

  /** Whoever is answered so has the policy asked for in force: the observed object has it, was last changed
      by the same user, and has another version than the one the request was made for. The same user had
      planned it for that version and gave the phrases that the plan called for. */
  lemma ReplayIsHonest(api: Api, states: seq<System>, events: seq<Event>, n: nat, username: string, request: Request)
    requires IsRun(api, states, events) && n < |states| && Presentable(states[n], request)
    requires Replayed(api, states[n].snapshot, username, request, states[n].now)
    ensures var s := states[n];
      && s.snapshot.version.Some? && s.snapshot.version.value in s.history && request.version != s.snapshot.version
      && var stored := s.history[s.snapshot.version.value];
         Normalize(stored.policy) == Normalize(request.policy) && stored.changedBy == username
    ensures request.confirmation.token.Signed? && request.confirmation.token.payload in states[n].issued
    ensures var p, c := request.confirmation.token.payload, request.confirmation;
      && p.planHash.actor == username && request.version == Some(p.planHash.version)
      && (Broadens(p.planHash.current, p.planHash.effective) ==> Phrases(api, c))
      && (p.planHash.effective.poolDelete && !p.planHash.current.poolDelete ==> c.poolPhrase == POOL_PHRASE)
  {
    RunKeepsInv(api, states, events, n);
    var s := states[n];
    assert SnapshotOK(api, s);
    NormalizeIdempotent(s.history[s.snapshot.version.value].policy);
    IssuedAreGenuine(api, states, events, n, request.confirmation.token.payload);
  }
}
