/** The plan / confirm / apply protocol over a versioned policy object, an observing manager and
    concurrent apply requests (apps/api/internal/policy/http.go and policy.go). */
module PolicyProtocol {
  import opened Common
  import opened StoragePolicies

  const CHALLENGE_TTL: nat := 300
  const ENABLE_PHRASE: string := "ENABLE STORAGE CHANGES"
  const POOL_PHRASE: string := "ENABLE CEPH POOL DELETE"

  type Version = nat

  /** The HighlandPolicy object; the API server gives every write of it a new version. */
  datatype PolicyObject = PolicyObject(policy: StoragePolicy, generation: nat, changedBy: string)

  datatype Source = Unavailable | StaticHelm | RuntimePolicy

  datatype Snapshot = Snapshot(
    requested: StoragePolicy, effective: StoragePolicy, source: Source, stale: bool,
    version: Option<Version>, generation: nat, changedBy: string)

  const FAILED_CLOSED := Snapshot(NO_WRITES, NO_WRITES, Unavailable, true, None, 0, "")

  datatype Confirmation = Confirmation(token: Token, cluster: string, enablePhrase: string, poolPhrase: string, acknowledged: bool)

  /** Only the server can sign: a token is absent, not a valid signature, or one it signed. */
  datatype Token = NoToken | BadToken | Signed(payload: Payload)

  datatype Request = Request(policy: StoragePolicy, version: Option<Version>, confirmation: Confirmation)

  /** What hashPlan hashes; equal hashes mean equal contents. */
  datatype PlanBody = PlanBody(
    current: StoragePolicy, requested: StoragePolicy, effective: StoragePolicy, ceiling: Ceiling,
    version: Version, generation: nat, broadening: bool, enablesPool: bool, cluster: string, actor: string)

  datatype Payload = Payload(
    username: string, cluster: string, version: Version, requested: StoragePolicy, planHash: PlanBody,
    broadening: bool, enablesPool: bool, expires: nat)

  datatype PlanError = PolicyInvalid | NotAuthoritative | Stale | CeilingExceeded
    | ConfirmationRequired | ChallengeInvalid | ChallengeExpired | ConfirmationMismatch

  datatype Api = Api(cluster: string, ceiling: Ceiling)

  // ---------- the manager ----------

  /** The snapshot after observing a version of the object. */
  function Observed(ceiling: Ceiling, version: Version, o: PolicyObject): Snapshot {
    var requested := Normalize(o.policy);
    if !Valid(requested) then FAILED_CLOSED
    else Snapshot(requested, Intersect(requested, ceiling), RuntimePolicy, false, Some(version), o.generation, o.changedBy)
  }

  /** Whether the runtime policy is enabled, and what is requested where it is not. */
  datatype Config = Config(enabled: bool, installed: StoragePolicy)

  function FirstSnapshot(ceiling: Ceiling, config: Config): Snapshot {
    var requested := Normalize(config.installed);
    if config.enabled then FAILED_CLOSED
    else Snapshot(requested, Intersect(requested, ceiling), StaticHelm, false, None, 0, "")
  }

  class Manager {
    const ceiling: Ceiling
    var snapshot: Snapshot

    constructor (ceiling: Ceiling, config: Config)
      ensures this.ceiling == ceiling && snapshot == FirstSnapshot(ceiling, config)
    {
      this.ceiling := ceiling;
      snapshot := FAILED_CLOSED;
      if !config.enabled {
        var requested := Normalize(config.installed);
        snapshot := Snapshot(requested, Intersect(requested, ceiling), StaticHelm, false, None, 0, "");
      }
    }

    method Observe(version: Version, o: PolicyObject)
      modifies this`snapshot
      ensures snapshot == Observed(ceiling, version, o)
    {
      var requested := Normalize(o.policy);
      if !Valid(requested) {
        FailClosed();
        return;
      }
      snapshot := Snapshot(requested, Intersect(requested, ceiling), RuntimePolicy, false, Some(version), o.generation, o.changedBy);
    }

    method FailClosed()
      modifies this`snapshot
      ensures snapshot == FAILED_CLOSED
    {
      snapshot := FAILED_CLOSED;
    }
  }

  /** The manager never lets more through than the ceiling, and nothing when it has no policy. Only a
      static policy is not validated. */
  predicate SnapshotSafe(ceiling: Ceiling, s: Snapshot) {
    WithinCeiling(s.effective, ceiling) &&
    (s.source != StaticHelm || Valid(s.requested) ==> Valid(s.effective)) &&
    (s.source == Unavailable ==> s.effective == NO_WRITES && s.stale)
  }

  lemma ObservedIsSafe(ceiling: Ceiling, version: Version, o: PolicyObject)
    ensures SnapshotSafe(ceiling, Observed(ceiling, version, o))
  {
    if Valid(Normalize(o.policy)) { IntersectIsMeet(Normalize(o.policy), ceiling); }
    ValidMeaning(NO_WRITES);
  }

  lemma FirstIsSafe(ceiling: Ceiling, config: Config)
    ensures SnapshotSafe(ceiling, FirstSnapshot(ceiling, config))
  {
    var requested := Normalize(config.installed);
    IntersectWithinCeiling(requested, ceiling);
    if Valid(requested) { IntersectIsMeet(requested, ceiling); }
    ValidMeaning(NO_WRITES);
  }

  // ---------- plan and verify ----------

  function Plan(api: Api, s: Snapshot, username: string, request: Request): Result<PlanBody, PlanError> {
    var requested := Normalize(request.policy);
    if !Valid(requested) then Err(PolicyInvalid)
    else if s.source != RuntimePolicy || s.stale then Err(NotAuthoritative)
    else if request.version.None? || request.version != s.version then Err(Stale)
    else if CeilingViolations(requested, api.ceiling) != [] then Err(CeilingExceeded)
    else
      var effective := Intersect(requested, api.ceiling);
      Ok(PlanBody(s.effective, requested, effective, api.ceiling, request.version.value, s.generation,
        Broadens(s.effective, effective), !s.effective.poolDelete && effective.poolDelete, api.cluster, username))
  }

  function ChallengeFor(api: Api, plan: PlanBody, now: nat): Payload {
    Payload(plan.actor, api.cluster, plan.version, plan.requested, plan, plan.broadening, plan.enablesPool, now + CHALLENGE_TTL)
  }

  predicate Phrases(api: Api, c: Confirmation) {
    c.acknowledged && c.cluster == api.cluster && c.enablePhrase == ENABLE_PHRASE
  }

  function Verify(api: Api, username: string, request: Request, plan: PlanBody, now: nat): Option<PlanError> {
    var c := request.confirmation;
    match c.token
    case NoToken => Some(ConfirmationRequired)
    case BadToken => Some(ChallengeInvalid)
    case Signed(p) =>
      if p.username != username || p.cluster != api.cluster || p.version != plan.version
        || p.planHash != plan || Normalize(p.requested) != Normalize(request.policy) then Some(ChallengeInvalid)
      else if now > p.expires then Some(ChallengeExpired)
      else if plan.broadening && !Phrases(api, c) then Some(ConfirmationMismatch)
      else if plan.enablesPool && c.poolPhrase != POOL_PHRASE then Some(ConfirmationMismatch)
      else None
  }

  // ---------- the system ----------

  type Thread = nat

  /** An apply request between its checks and its write. */
  datatype Job =
    | Admitted(username: string, request: Request, plan: PlanBody, at: nat)
    | Holding(username: string, request: Request, plan: PlanBody, at: nat, version: Version, generation: nat)

  /** A successful policy write: who, what, on which plan, admitted when, over which version, and the
      version it stored. */
  datatype Write = Write(username: string, request: Request, plan: PlanBody, at: nat, over: Version, stored: Version)

  /** `history` holds every version of the object there ever was, `live` the stored one. */
  datatype System = System(
    history: map<Version, PolicyObject>, live: Option<Version>, next: Version,
    snapshot: Snapshot, issued: set<Payload>, now: nat, jobs: map<Thread, Job>, writes: seq<Write>)

  function Boot(ceiling: Ceiling, config: Config): System {
    System(map[], None, 0, FirstSnapshot(ceiling, config), {}, 0, map[], [])
  }

  datatype Event =
    | Tick
    | Outside(o: PolicyObject)
    | OutsideDelete
    | Observe(version: Version)
    | FailClosed
    | CreatePlan(username: string, request: Request)
    | ApplyAdmit(thread: Thread, username: string, request: Request)
    | UpdateGet(thread: Thread)
    | UpdatePut(thread: Thread)
    | Abort(thread: Thread)

  function Store(s: System, o: PolicyObject): System {
    s.(history := s.history[s.next := o], live := Some(s.next), next := s.next + 1)
  }

  function Drop(s: System, t: Thread): System { s.(jobs := s.jobs - {t}) }

  /** The request only carries signatures the server made. */
  predicate Presentable(s: System, request: Request) {
    request.confirmation.token.Signed? ==> request.confirmation.token.payload in s.issued
  }

  predicate LiveOK(s: System) { s.live.Some? ==> s.live.value in s.history }

  ghost predicate Next(api: Api, s: System, e: Event, s': System) {
    LiveOK(s) &&
    match e
    case Tick => s' == s.(now := s.now + 1)
    case Outside(o) => s' == Store(s, o)
    case OutsideDelete => s' == s.(live := None, next := s.next + 1)
    case Observe(v) =>
      s.snapshot.source != StaticHelm && v in s.history &&
      s' == s.(snapshot := Observed(api.ceiling, v, s.history[v]))
    case FailClosed => s.snapshot.source != StaticHelm && s' == s.(snapshot := FAILED_CLOSED)
    case CreatePlan(u, r) =>
      var plan := Plan(api, s.snapshot, u, r);
      s' == if plan.Err? then s else s.(issued := s.issued + {ChallengeFor(api, plan.value, s.now)})
    case ApplyAdmit(t, u, r) =>
      t !in s.jobs && Presentable(s, r) &&
      var plan := Plan(api, s.snapshot, u, r);
      s' == if plan.Err? || Verify(api, u, r, plan.value, s.now).Some? then s
            else s.(jobs := s.jobs[t := Admitted(u, r, plan.value, s.now)])
    case UpdateGet(t) =>
      t in s.jobs && s.jobs[t].Admitted? &&
      var j := s.jobs[t];
      var requested := Normalize(j.request.policy);
      s' == if !Valid(requested) || s.live.None? || j.request.version != s.live
              || CeilingViolations(requested, api.ceiling) != [] then Drop(s, t)
            else s.(jobs := s.jobs[t := Holding(j.username, j.request, j.plan, j.at, s.live.value, s.history[s.live.value].generation)])
    case UpdatePut(t) =>
      t in s.jobs && s.jobs[t].Holding? &&
      var j := s.jobs[t];
      s' == if s.live != Some(j.version) then Drop(s, t)
            else Drop(Store(s, PolicyObject(Normalize(j.request.policy), j.generation + 1, j.username)), t)
              .(writes := s.writes + [WriteOf(j, s.next)])
    case Abort(t) => s' == Drop(s, t)
  }

  // ---------- what every write satisfies ----------

  /** The write was confirmed: by an unexpired challenge issued to the same user for the same policy
      and plan, with the phrases if it broadens what the version it replaced permitted. */
  predicate Confirmed(api: Api, s: System, username: string, request: Request, plan: PlanBody, at: nat) {
    var token := request.confirmation.token;
    var requested := Normalize(request.policy);
    && token.Signed? && token.payload in s.issued
    && token.payload.username == username
    && token.payload.planHash == plan && Normalize(token.payload.requested) == requested
    && at <= token.payload.expires <= s.now + CHALLENGE_TTL && at <= s.now
    && request.version == Some(plan.version) && plan.version in s.history
    && Valid(requested) && WithinCeiling(requested, api.ceiling)
    && (var before := s.history[plan.version].policy;
        Valid(Normalize(before)) &&
        plan.current == Intersect(Normalize(before), api.ceiling) &&
        plan.effective == requested &&
        (Broadens(plan.current, requested) ==> Phrases(api, request.confirmation)) &&
        (!plan.current.poolDelete && requested.poolDelete ==> request.confirmation.poolPhrase == POOL_PHRASE))
  }

  /** What was stored is the policy requested, in its normal form, in the name of who asked for it, and the
      generation after that of the object it replaced. */
  predicate Stored(s: System, w: Write) {
    && w.over < w.stored && w.stored in s.history && w.over in s.history
    && s.history[w.stored] == PolicyObject(Normalize(w.request.policy), s.history[w.over].generation + 1, w.username)
  }

  predicate WriteOK(api: Api, s: System, w: Write) {
    Confirmed(api, s, w.username, w.request, w.plan, w.at) && w.over == w.plan.version && Stored(s, w)
  }

  predicate JobOK(api: Api, s: System, j: Job) {
    Confirmed(api, s, j.username, j.request, j.plan, j.at) && (j.Holding? ==> j.version == j.plan.version && HoldsGeneration(s, j))
  }

  predicate HoldsGeneration(s: System, j: Job)
    requires j.Holding?
  {
    j.version in s.history && j.generation == s.history[j.version].generation
  }

  predicate SnapshotOK(api: Api, s: System) {
    SnapshotSafe(api.ceiling, s.snapshot) &&
    (s.snapshot.source == RuntimePolicy ==>
      s.snapshot.version.Some? && s.snapshot.version.value in s.history &&
      s.snapshot == Observed(api.ceiling, s.snapshot.version.value, s.history[s.snapshot.version.value]))
  }

  /** The parts of the invariant about versions and writes, which the policies play no role in. */
  ghost predicate Ordered(s: System) {
    && LiveOK(s)
    && (forall v :: v in s.history ==> v < s.next)
    && (forall p :: p in s.issued ==> p.expires <= s.now + CHALLENGE_TTL)
    && (forall i :: 0 <= i < |s.writes| ==> s.live.Some? ==> s.writes[i].over < s.live.value)
    && (forall i :: 0 <= i < |s.writes| ==> s.writes[i].over < s.next)
    && (forall i, j :: 0 <= i < j < |s.writes| ==> s.writes[i].over < s.writes[j].over)
  }

  ghost predicate Inv(api: Api, s: System) {
    && Ordered(s)
    && SnapshotOK(api, s)
    && (forall t :: t in s.jobs ==> JobOK(api, s, s.jobs[t]))
    && (forall i :: 0 <= i < |s.writes| ==> WriteOK(api, s, s.writes[i]))
  }

  /** Confirmation is not undone by anything that happens later. */
  lemma ConfirmedLater(api: Api, s: System, s': System, u: string, r: Request, plan: PlanBody, at: nat)
    requires Confirmed(api, s, u, r, plan, at)
    requires s.issued <= s'.issued && s.now <= s'.now
    requires forall v :: v in s.history ==> v in s'.history && s'.history[v] == s.history[v]
    ensures Confirmed(api, s', u, r, plan, at)
  {}

  /** Passing plan and verify establishes it. */
  lemma AdmissionConfirms(api: Api, s: System, u: string, r: Request)
    requires Inv(api, s) && Presentable(s, r)
    requires Plan(api, s.snapshot, u, r).Ok?
    requires Verify(api, u, r, Plan(api, s.snapshot, u, r).value, s.now).None?
    ensures Confirmed(api, s, u, r, Plan(api, s.snapshot, u, r).value, s.now)
  {
    var requested := Normalize(r.policy);
    NoViolationsMeansWithin(requested, api.ceiling);
    IntersectExact(requested, api.ceiling);
    NormalizeIdempotent(r.policy);
  }

  lemma StepKeepsOrdered(api: Api, s: System, e: Event, s': System)
    requires Ordered(s) && Next(api, s, e, s')
    ensures Ordered(s')
    ensures s.issued <= s'.issued && s.now <= s'.now
    ensures forall v :: v in s.history ==> v in s'.history && s'.history[v] == s.history[v]
  {}

  lemma StepKeepsSnapshot(api: Api, s: System, e: Event, s': System)
    requires Ordered(s) && SnapshotOK(api, s) && Next(api, s, e, s')
    ensures SnapshotOK(api, s')
  {
    StepKeepsOrdered(api, s, e, s');
    if e.Observe? { ObservedIsSafe(api.ceiling, e.version, s.history[e.version]); }
    if e.FailClosed? { ValidMeaning(NO_WRITES); }
  }

  /** How a step changes a job: it was admitted just now, it now holds the version its request names,
      or nothing happened to it. */
  predicate JobFrom(api: Api, s: System, t: Thread, j: Job) {
    || (t in s.jobs && s.jobs[t] == j)
    || (t in s.jobs && j.Holding? && j.request.version == Some(j.version) && HoldsGeneration(s, j)
        && s.jobs[t] == Admitted(j.username, j.request, j.plan, j.at))
    || (j.Admitted? && j.at == s.now && Presentable(s, j.request)
        && Plan(api, s.snapshot, j.username, j.request) == Ok(j.plan)
        && Verify(api, j.username, j.request, j.plan, s.now).None?)
  }

  lemma JobsChange(api: Api, s: System, e: Event, s': System)
    requires Next(api, s, e, s')
    ensures forall t :: t in s'.jobs ==> JobFrom(api, s, t, s'.jobs[t])
  {}

  lemma JobFromOK(api: Api, s: System, s': System, t: Thread, j: Job)
    requires Inv(api, s) && JobFrom(api, s, t, j)
    requires s.issued <= s'.issued && s.now <= s'.now
    requires forall v :: v in s.history ==> v in s'.history && s'.history[v] == s.history[v]
    ensures JobOK(api, s', j)
  {
    if t in s.jobs && (s.jobs[t] == j || s.jobs[t] == Admitted(j.username, j.request, j.plan, j.at)) {
      assert JobOK(api, s, s.jobs[t]);
    } else {
      AdmissionConfirms(api, s, j.username, j.request);
    }
    ConfirmedLater(api, s, s', j.username, j.request, j.plan, j.at);
  }

  lemma StepKeepsJobs(api: Api, s: System, e: Event, s': System)
    requires Inv(api, s) && Next(api, s, e, s')
    ensures forall t :: t in s'.jobs ==> JobOK(api, s', s'.jobs[t])
  {
    StepKeepsOrdered(api, s, e, s');
    JobsChange(api, s, e, s');
    forall t | t in s'.jobs ensures JobOK(api, s', s'.jobs[t]) {
      JobFromOK(api, s, s', t, s'.jobs[t]);
    }
  }

  function WriteOf(j: Job, stored: Version): Write
    requires j.Holding?
  {
    Write(j.username, j.request, j.plan, j.at, j.version, stored)
  }

  predicate Wrote(s: System, v: Version, j: Job)
    requires j.Holding?
  {
    v in s.history && s.history[v] == PolicyObject(Normalize(j.request.policy), j.generation + 1, j.username)
  }

  /** A step adds at most one write: that of a job whose version is the live one. */
  predicate WriteFrom(s: System, s': System) {
    s'.writes == s.writes
    || (exists t ::
          t in s.jobs && s.jobs[t].Holding? && s.live == Some(s.jobs[t].version) && s'.live == Some(s.next)
          && s'.writes == s.writes + [WriteOf(s.jobs[t], s.next)] && Wrote(s', s.next, s.jobs[t]))
  }

  lemma WritesChange(api: Api, s: System, e: Event, s': System)
    requires Next(api, s, e, s')
    ensures WriteFrom(s, s')
  {}

  lemma WriteFromOK(api: Api, s: System, s': System)
    requires Inv(api, s) && WriteFrom(s, s')
    requires s.issued <= s'.issued && s.now <= s'.now
    requires forall v :: v in s.history ==> v in s'.history && s'.history[v] == s.history[v]
    ensures forall i :: 0 <= i < |s'.writes| ==> WriteOK(api, s', s'.writes[i])
  {
    forall i | 0 <= i < |s'.writes| ensures WriteOK(api, s', s'.writes[i]) {
      if i < |s.writes| {
        OldWriteOK(api, s, s', s.writes[i]);
      } else {
        var t :| t in s.jobs && s.jobs[t].Holding? && s.live == Some(s.jobs[t].version)
          && s'.writes == s.writes + [WriteOf(s.jobs[t], s.next)] && Wrote(s', s.next, s.jobs[t]);
        NewWriteOK(api, s, s', t);
      }
    }
  }

  lemma OldWriteOK(api: Api, s: System, s': System, w: Write)
    requires WriteOK(api, s, w) && s.issued <= s'.issued && s.now <= s'.now
    requires forall v :: v in s.history ==> v in s'.history && s'.history[v] == s.history[v]
    ensures WriteOK(api, s', w)
  {
    ConfirmedLater(api, s, s', w.username, w.request, w.plan, w.at);
  }

  lemma NewWriteOK(api: Api, s: System, s': System, t: Thread)
    requires Inv(api, s) && t in s.jobs && s.jobs[t].Holding? && Wrote(s', s.next, s.jobs[t])
    requires s.issued <= s'.issued && s.now <= s'.now
    requires forall v :: v in s.history ==> v in s'.history && s'.history[v] == s.history[v]
    ensures WriteOK(api, s', WriteOf(s.jobs[t], s.next))
  {
    var j := s.jobs[t];
    assert JobOK(api, s, j);
    ConfirmedLater(api, s, s', j.username, j.request, j.plan, j.at);
  }

  lemma StepKeepsWrites(api: Api, s: System, e: Event, s': System)
    requires Inv(api, s) && Next(api, s, e, s')
    ensures forall i :: 0 <= i < |s'.writes| ==> WriteOK(api, s', s'.writes[i])
  {
    StepKeepsOrdered(api, s, e, s');
    WritesChange(api, s, e, s');
    WriteFromOK(api, s, s');
  }

  lemma StepKeepsInv(api: Api, s: System, e: Event, s': System)
    requires Inv(api, s) && Next(api, s, e, s')
    ensures Inv(api, s')
  {
    StepKeepsOrdered(api, s, e, s');
    StepKeepsSnapshot(api, s, e, s');
    StepKeepsJobs(api, s, e, s');
    StepKeepsWrites(api, s, e, s');
  }

  // ---------- runs ----------

  ghost predicate IsRun(api: Api, states: seq<System>, events: seq<Event>) {
    |states| == |events| + 1 && (exists config :: states[0] == Boot(api.ceiling, config)) &&
    forall i :: 0 <= i < |events| ==> Next(api, states[i], events[i], states[i + 1])
  }

  lemma BootIsFine(api: Api, config: Config)
    ensures Inv(api, Boot(api.ceiling, config))
  {
    FirstIsSafe(api.ceiling, config);
  }

  lemma {:induction false} RunKeepsInv(api: Api, states: seq<System>, events: seq<Event>, n: nat)
    requires IsRun(api, states, events) && n < |states|
    ensures Inv(api, states[n])
  {
    if n == 0 {
      var config :| states[0] == Boot(api.ceiling, config);
      BootIsFine(api, config);
    } else {
      RunKeepsInv(api, states, events, n - 1);
      var s, s' := states[n - 1], states[n];
      StepKeepsInv(api, s, events[n - 1], s');
    }
  }

  /** In every run, a policy write happens only over the version stored at that moment, and every
      write ever made was confirmed; two writes never replaced the same version. */
  lemma WritesAreConfirmed(api: Api, states: seq<System>, events: seq<Event>, n: nat, s: System, s': System)
    requires IsRun(api, states, events) && n < |events| && s == states[n] && s' == states[n + 1]
    ensures |s'.writes| != |s.writes| ==>
      |s'.writes| == |s.writes| + 1 && s.live == Some(s'.writes[|s.writes|].over) && s'.live == Some(s'.writes[|s.writes|].stored)
    ensures forall i :: 0 <= i < |s'.writes| ==> WriteOK(api, s', s'.writes[i])
    ensures forall i, j :: 0 <= i < j < |s'.writes| ==> s'.writes[i].over != s'.writes[j].over
  {
    RunKeepsInv(api, states, events, n);
    RunKeepsInv(api, states, events, n + 1);
    WritesChange(api, s, events[n], s');
  }

  /** The stored object changes by a write, or not through this server. */
  lemma OnlyWritesChangeThePolicy(api: Api, states: seq<System>, events: seq<Event>, n: nat)
    requires IsRun(api, states, events) && n < |events| && states[n + 1].live != states[n].live
    requires !events[n].Outside? && !events[n].OutsideDelete?
    ensures |states[n + 1].writes| == |states[n].writes| + 1
  {
    assert Next(api, states[n], events[n], states[n + 1]);
  }

  /** The phrases were given whenever the version that was stored permits something that the replaced one,
      cut to the ceiling, did not; and the second phrase if that is the deletion of pools. */
  lemma GrowthNeedsPhrases(api: Api, states: seq<System>, events: seq<Event>, n: nat, i: nat)
    requires IsRun(api, states, events) && n < |states| && i < |states[n].writes|
    ensures var s, w := states[n], states[n].writes[i];
      w.over in s.history && w.stored in s.history &&
      var before, after := Intersect(Normalize(s.history[w.over].policy), api.ceiling), s.history[w.stored].policy;
      && (!Leq(after, before) ==> Phrases(api, w.request.confirmation))
      && (after.poolDelete && !before.poolDelete ==> w.request.confirmation.poolPhrase == POOL_PHRASE)
      && WithinCeiling(after, api.ceiling) && Valid(after)
  {
    RunKeepsInv(api, states, events, n);
    var w := states[n].writes[i];
    assert WriteOK(api, states[n], w);
    var before := Normalize(states[n].history[w.over].policy);
    IntersectIsMeet(before, api.ceiling);
    BroadensExactly(Intersect(before, api.ceiling), Normalize(w.request.policy));
  }

  // ---------- what is confirmed goes through ----------

  /** A request with the challenge of its own plan is admitted exactly until the challenge expires, with the
      phrases that the plan calls for. */
  lemma AdmittedExactly(api: Api, s: Snapshot, username: string, request: Request, plan: PlanBody, issued: nat, now: nat)
    requires Plan(api, s, username, request) == Ok(plan)
    requires request.confirmation.token == Signed(ChallengeFor(api, plan, issued))
    ensures var c, after := request.confirmation, Intersect(request.policy, api.ceiling);
      Verify(api, username, request, plan, now) == None <==>
        && now <= issued + CHALLENGE_TTL
        && (Broadens(s.effective, after) ==> c.acknowledged && c.cluster == api.cluster && c.enablePhrase == ENABLE_PHRASE)
        && (after.poolDelete && !s.effective.poolDelete ==> c.poolPhrase == POOL_PHRASE)
  {
    NormalizeIdempotent(request.policy);
  }

  /** With everything confirmed. */
  function Confirming(api: Api, request: Request, plan: PlanBody, now: nat): Request {
    request.(confirmation := Confirmation(Signed(ChallengeFor(api, plan, now)), api.cluster, ENABLE_PHRASE, POOL_PHRASE, true))
  }

  /** From every reachable state in which the stored policy is the observed one: any valid policy within the
      ceiling can be planned, confirmed and applied, and is then the stored one. */
  lemma UndisturbedApplyStores(api: Api, s: System, t: Thread, username: string, policy: StoragePolicy) returns (events: seq<Event>, states: seq<System>)
    requires Inv(api, s) && s.live.Some? && s.snapshot.source == RuntimePolicy && s.snapshot.version == s.live && t !in s.jobs
    requires Valid(Normalize(policy)) && WithinCeiling(policy, api.ceiling)
    ensures |events| == 4 && |states| == 5 && states[0] == s
    ensures events[0].CreatePlan? && events[1].ApplyAdmit? && events[2] == UpdateGet(t) && events[3] == UpdatePut(t)
    ensures forall i :: 0 <= i < 4 ==> Next(api, states[i], events[i], states[i + 1])
    ensures var last := states[4];
      last.live == Some(s.next) && s.next in last.history && last.history[s.next].policy == Normalize(policy)
      && last.history[s.next].changedBy == username && |last.writes| == |s.writes| + 1
  {
    var request := Request(policy, s.live, Confirmation(NoToken, "", "", "", false));
    var plan := PlanOfLive(api, s, username, request);
    var confirmed := Confirming(api, request, plan, s.now);
    var s1 := s.(issued := s.issued + {ChallengeFor(api, plan, s.now)});
    var s2 := ApplyAdmits(api, s1, t, username, request, plan);
    var s3 := ApplyGets(api, s2, t);
    var s4 := ApplyPuts(api, s3, t);
    events := [CreatePlan(username, request), ApplyAdmit(t, username, confirmed), UpdateGet(t), UpdatePut(t)];
    states := [s, s1, s2, s3, s4];
  }

  lemma PlanOfLive(api: Api, s: System, username: string, request: Request) returns (plan: PlanBody)
    requires Inv(api, s) && s.live.Some? && s.snapshot.source == RuntimePolicy && s.snapshot.version == s.live == request.version
    requires Valid(Normalize(request.policy)) && WithinCeiling(request.policy, api.ceiling)
    ensures forall c :: Plan(api, s.snapshot, username, request.(confirmation := c)) == Ok(plan)
    ensures Plan(api, s.snapshot, username, request) == Ok(plan)
  {
    NoViolationsMeansWithin(Normalize(request.policy), api.ceiling);
    plan := Plan(api, s.snapshot, username, request).value;
  }

  lemma ApplyAdmits(api: Api, s: System, t: Thread, username: string, request: Request, plan: PlanBody) returns (s': System)
    requires LiveOK(s) && t !in s.jobs && ChallengeFor(api, plan, s.now) in s.issued
    requires forall c :: Plan(api, s.snapshot, username, request.(confirmation := c)) == Ok(plan)
    ensures var confirmed := Confirming(api, request, plan, s.now);
      && Next(api, s, ApplyAdmit(t, username, confirmed), s')
      && s' == s.(jobs := s.jobs[t := Admitted(username, confirmed, plan, s.now)])
  {
    var confirmed := Confirming(api, request, plan, s.now);
    assert confirmed == request.(confirmation := confirmed.confirmation);
    AdmittedExactly(api, s.snapshot, username, confirmed, plan, s.now, s.now);
    s' := s.(jobs := s.jobs[t := Admitted(username, confirmed, plan, s.now)]);
  }

  lemma ApplyGets(api: Api, s: System, t: Thread) returns (s': System)
    requires LiveOK(s) && s.live.Some? && t in s.jobs && s.jobs[t].Admitted? && s.jobs[t].request.version == s.live
    requires Valid(Normalize(s.jobs[t].request.policy)) && WithinCeiling(s.jobs[t].request.policy, api.ceiling)
    ensures Next(api, s, UpdateGet(t), s') && s' == s.(jobs := s'.jobs) && t in s'.jobs && s'.jobs[t].Holding?
    ensures s'.jobs[t].version == s.live.value && s'.jobs[t].request == s.jobs[t].request && s'.jobs[t].username == s.jobs[t].username
  {
    var j := s.jobs[t];
    NoViolationsMeansWithin(Normalize(j.request.policy), api.ceiling);
    s' := s.(jobs := s.jobs[t := Holding(j.username, j.request, j.plan, j.at, s.live.value, s.history[s.live.value].generation)]);
  }

  lemma ApplyPuts(api: Api, s: System, t: Thread) returns (s': System)
    requires LiveOK(s) && t in s.jobs && s.jobs[t].Holding? && s.live == Some(s.jobs[t].version)
    ensures Next(api, s, UpdatePut(t), s') && s'.live == Some(s.next) && |s'.writes| == |s.writes| + 1
    ensures s.next in s'.history && s'.history[s.next].policy == Normalize(s.jobs[t].request.policy)
    ensures s'.history[s.next].changedBy == s.jobs[t].username
  {
    var j := s.jobs[t];
    s' := Drop(Store(s, PolicyObject(Normalize(j.request.policy), j.generation + 1, j.username)), t)
      .(writes := s.writes + [WriteOf(j, s.next)]);
  }

  /** An observed valid object can be planned on: the snapshot is the runtime policy, not stale, with its
      version. */
  lemma ObservedIsPlannable(api: Api, s: System, v: Version, s': System)
    requires Inv(api, s) && Next(api, s, Observe(v), s') && Valid(Normalize(s.history[v].policy))
    ensures s'.snapshot.source == RuntimePolicy && !s'.snapshot.stale && s'.snapshot.version == Some(v)
    ensures s'.snapshot.requested == Normalize(s.history[v].policy)
    ensures s'.snapshot.generation == s.history[v].generation && s'.snapshot.changedBy == s.history[v].changedBy
    ensures forall q :: Valid(q) ==>
      (Leq(q, s'.snapshot.effective) <==> Leq(q, Normalize(s.history[v].policy)) && WithinCeiling(q, api.ceiling))
  {
    MeetExactly(Normalize(s.history[v].policy), api.ceiling);
  }

  lemma LeqThrough(p: StoragePolicy, q: StoragePolicy, r: StoragePolicy)
    requires Leq(p, q) && Leq(q, r)
    ensures Leq(p, r)
  {
    forall id | Allows(p, id) ensures Allows(r, id) { assert Allows(q, id); }
  }

  /** Where the runtime policy is enabled, nothing is permitted, admitted or written until an object was
      observed. */
  lemma {:induction false} NothingUntilObserved(api: Api, config: Config, states: seq<System>, events: seq<Event>, n: nat)
    requires IsRun(api, states, events) && n < |states| && states[0] == Boot(api.ceiling, config) && config.enabled
    requires forall i :: 0 <= i < n ==> !events[i].Observe?
    ensures var s := states[n]; s.snapshot.effective == NO_WRITES && s.snapshot.stale && s.jobs == map[] && s.writes == [] && s.issued == {}
    ensures states[n].snapshot == FAILED_CLOSED
  {
    if n > 0 {
      NothingUntilObserved(api, config, states, events, n - 1);
      ClosedStep(api, states[n - 1], events[n - 1], states[n]);
    }
  }

  lemma ClosedStep(api: Api, s: System, e: Event, s': System)
    requires Next(api, s, e, s') && !e.Observe? && s.snapshot == FAILED_CLOSED && s.jobs == map[] && s.writes == [] && s.issued == {}
    ensures s'.snapshot == FAILED_CLOSED && s'.jobs == map[] && s'.writes == [] && s'.issued == {}
  {}

  /** Where it is not, the installed policy is in force as far as the ceiling allows. */
  lemma InstalledIsInForce(ceiling: Ceiling, config: Config)
    requires !config.enabled && Valid(Normalize(config.installed))
    ensures var s := FirstSnapshot(ceiling, config);
      && s.source == StaticHelm && !s.stale && s.requested == Normalize(config.installed)
      && forall q :: Valid(q) ==> (Leq(q, s.effective) <==> Leq(q, Normalize(config.installed)) && WithinCeiling(q, ceiling))
  {
    MeetExactly(Normalize(config.installed), ceiling);
  }

  /** Below the effective policy is what is below both request and ceiling. */
  lemma MeetExactly(requested: StoragePolicy, ceiling: Ceiling)
    requires Valid(requested)
    ensures forall q :: Valid(q) ==> (Leq(q, Intersect(requested, ceiling)) <==> Leq(q, requested) && WithinCeiling(q, ceiling))
  {
    IntersectIsMeet(requested, ceiling);
    forall q | Valid(q) && Leq(q, Intersect(requested, ceiling))
      ensures Leq(q, requested) && WithinCeiling(q, ceiling)
    {
      LeqThrough(q, Intersect(requested, ceiling), requested);
    }
  }

  /** Without the runtime policy nothing is ever written, and the first snapshot stays. */
  lemma {:induction false} StaticRunWritesNothing(api: Api, states: seq<System>, events: seq<Event>, n: nat)
    requires IsRun(api, states, events) && n < |states| && states[0].snapshot.source == StaticHelm
    ensures states[n].snapshot == states[0].snapshot && states[n].writes == [] && states[n].jobs == map[]
  {
    if n > 0 {
      StaticRunWritesNothing(api, states, events, n - 1);
      StaticStep(api, states[n - 1], events[n - 1], states[n]);
    }
  }

  lemma StaticStep(api: Api, s: System, e: Event, s': System)
    requires Next(api, s, e, s') && s.snapshot.source == StaticHelm && s.writes == [] && s.jobs == map[]
    ensures s'.snapshot == s.snapshot && s'.writes == [] && s'.jobs == map[]
  {}

  /** Every snapshot the manager can hold is safe. */
  lemma SnapshotsAreSafe(api: Api, states: seq<System>, events: seq<Event>, n: nat)
    requires IsRun(api, states, events) && n < |states|
    ensures SnapshotSafe(api.ceiling, states[n].snapshot)
  {
    RunKeepsInv(api, states, events, n);
  }
}
