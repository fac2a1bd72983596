/** A replica refreshes in the background while it also changes the document: a load may be applied after a
    newer document was (apps/api/internal/auth/users.go). */
module StaleReplicas {
  import opened Common
  import opened IdentityDocument
  import opened IdentityInvariants

  type Task = nat

  /** docs are the documents ever stored, by ops; `loaded` maps each task that has read or written the store
      and not applied the result yet to its place in docs; `applied` is the place of what is applied. */
  datatype System = System(docs: seq<Document>, ops: seq<Op>, loaded: map<Task, nat>, applied: nat)

  datatype Event = Load(task: Task) | Commit(task: Task, op: Op) | Elsewhere(op: Op) | Install(task: Task)

  function Newest(s: System): nat
    requires s.docs != []
  {
    |s.docs| - 1
  }

  function Stored(s: System, op: Op): System
    requires s.docs != [] && Apply(s.docs[Newest(s)], op).Ok?
  {
    s.(docs := s.docs + [Apply(s.docs[Newest(s)], op).value], ops := s.ops + [op])
  }

  ghost predicate Inv(s: System) {
    && History(s.docs, s.ops) && s.applied < |s.docs|
    && forall t :: t in s.loaded ==> s.loaded[t] < |s.docs|
  }

  /** Refresh loads and later applies; mutate stores and later applies what it stored; other replicas store. */
  ghost predicate Next(s: System, e: Event, s': System) {
    s.docs != [] &&
    match e
    case Load(t) => t !in s.loaded && s' == s.(loaded := s.loaded[t := Newest(s)])
    case Commit(t, op) =>
      t !in s.loaded && Apply(s.docs[Newest(s)], op).Ok? &&
      s' == Stored(s, op).(loaded := s.loaded[t := |s.docs|])
    case Elsewhere(op) => Apply(s.docs[Newest(s)], op).Ok? && s' == Stored(s, op)
    case Install(t) => t in s.loaded && s' == s.(applied := s.loaded[t], loaded := s.loaded - {t})
  }

  /** A replica that has just applied the newest document, and what happens next. */
  ghost predicate IsRun(states: seq<System>, events: seq<Event>) {
    && |states| == |events| + 1
    && Inv(states[0]) && states[0].loaded == map[]
    && forall i :: 0 <= i < |events| ==> Next(states[i], events[i], states[i + 1])
  }

  lemma HistoryGrows(docs: seq<Document>, ops: seq<Op>, op: Op)
    requires History(docs, ops) && Apply(docs[|docs| - 1], op).Ok?
    ensures History(docs + [Apply(docs[|docs| - 1], op).value], ops + [op])
  {}

  lemma StepKeepsInv(s: System, e: Event, s': System)
    requires Inv(s) && Next(s, e, s')
    ensures Inv(s') && s.docs <= s'.docs && s.ops <= s'.ops
  {
    match e
    case Commit(_, op) => HistoryGrows(s.docs, s.ops, op);
    case Elsewhere(op) => HistoryGrows(s.docs, s.ops, op);
    case _ =>
  }

  lemma {:induction false} RunKeepsInv(states: seq<System>, events: seq<Event>, n: nat)
    requires IsRun(states, events) && n < |states|
    ensures Inv(states[n])
  {
    if n > 0 {
      RunKeepsInv(states, events, n - 1);
      StepKeepsInv(states[n - 1], events[n - 1], states[n]);
    }
  }

  /** What the replica answers. */
  predicate Accepts(s: System, session: Session)
    requires s.applied < |s.docs|
  {
    SessionValid(s.docs[s.applied], session)
  }

  /** Step k of the store ended the session, which document i had issued, for good. */
  ghost predicate EndedAt(s: System, session: Session, i: nat, k: nat)
    requires Inv(s)
  {
    && i <= k < |s.ops| && IssuedBy(s.docs[i], session) && EndsSessions(s.docs[k], s.ops[k], session.username)
    && VersionOf(s.docs[k + 1], session.username) >= 2
    && forall m :: i <= m < |s.ops| ==> s.ops[m] != Delete(session.username)
  }

  lemma EndedMeansRefused(s: System, session: Session, i: nat, k: nat, n: nat)
    requires Inv(s) && EndedAt(s, session, i, k) && k < n < |s.docs|
    ensures !SessionValid(s.docs[n], session)
  {
    RevokedFromVersionTwo(s.docs, s.ops, i, k, n, session);
  }

  /** In every run, applying a document makes the replica accept an ended session exactly when that document
      was read before the step that ended it, and still accepts it. */
  lemma AcceptedAgainExactly(states: seq<System>, events: seq<Event>, n: nat, t: Task, session: Session, i: nat, k: nat)
    requires IsRun(states, events) && n < |events| && events[n] == Install(t)
    requires Inv(states[n]) && EndedAt(states[n], session, i, k)
    ensures Inv(states[n + 1]) && t in states[n].loaded
    ensures Accepts(states[n + 1], session) <==>
      states[n].loaded[t] <= k && SessionValid(states[n].docs[states[n].loaded[t]], session)
  {
    RunKeepsInv(states, events, n + 1);
    var s := states[n];
    assert Next(s, events[n], states[n + 1]);
    if s.loaded[t] > k { EndedMeansRefused(s, session, i, k, s.loaded[t]); }
  }

  /** No task applies what is older than what is applied. */
  ghost predicate InOrder(states: seq<System>, events: seq<Event>, n: nat)
    requires |states| == |events| + 1 && n <= |events|
  {
    forall m :: 0 <= m < n && events[m].Install? && events[m].task in states[m].loaded ==>
      states[m].loaded[events[m].task] >= states[m].applied
  }

  lemma {:induction false} AppliedGrows(states: seq<System>, events: seq<Event>, j: nat, n: nat)
    requires IsRun(states, events) && j <= n < |states| && InOrder(states, events, n)
    ensures states[j].applied <= states[n].applied
  {
    if j < n {
      AppliedGrows(states, events, j, n - 1);
      assert Next(states[n - 1], events[n - 1], states[n]);
    }
  }

  /** As long as documents are applied in order, a replica that has applied one from after the step never
      accepts the session again. */
  lemma RefusedForGood(states: seq<System>, events: seq<Event>, j: nat, n: nat, session: Session, i: nat, k: nat)
    requires IsRun(states, events) && j <= n < |states| && InOrder(states, events, n)
    requires Inv(states[n]) && EndedAt(states[n], session, i, k) && states[j].applied > k
    ensures !Accepts(states[n], session)
  {
    AppliedGrows(states, events, j, n);
    EndedMeansRefused(states[n], session, i, k, states[n].applied);
  }

  /** A load that a mutation overtakes: for every document, every step that ends a session of it and every
      such session, the replica refuses the session and then accepts it again. */
  lemma OvertakenLoad(docs: seq<Document>, ops: seq<Op>, op: Op, session: Session) returns (states: seq<System>, events: seq<Event>)
    requires History(docs, ops)
    requires var d := docs[|docs| - 1];
      && IssuedBy(d, session) && SessionValid(d, session) && EndsSessions(d, op, session.username) && Apply(d, op).Ok?
      && VersionOf(Apply(d, op).value, session.username) >= 2
    ensures IsRun(states, events) && events == [Load(0), Commit(1, op), Install(1), Install(0)]
    ensures Inv(states[0]) && Inv(states[3]) && Inv(states[4])
    ensures Accepts(states[0], session) && !Accepts(states[3], session) && Accepts(states[4], session)
  {
    var last := |docs| - 1;
    var s0 := System(docs, ops, map[], last);
    var s1 := s0.(loaded := map[0 := last]);
    var s2 := Stored(s1, op).(loaded := s1.loaded[1 := last + 1]);
    var s3 := s2.(applied := last + 1, loaded := s2.loaded - {1});
    var s4 := s3.(applied := last, loaded := s3.loaded - {0});
    states, events := [s0, s1, s2, s3, s4], [Load(0), Commit(1, op), Install(1), Install(0)];
    HistoryGrows(docs, ops, op);
    assert Next(s0, events[0], s1) && Next(s1, events[1], s2) && Next(s2, events[2], s3) && Next(s3, events[3], s4);
    assert s2.docs[last] == docs[last] && s2.ops[last] == op;
    NewestEnds(s2, session, last);
  }

  lemma NewestEnds(s: System, session: Session, k: nat)
    requires Inv(s) && k + 1 == |s.ops| && IssuedBy(s.docs[k], session) && EndsSessions(s.docs[k], s.ops[k], session.username)
    requires VersionOf(s.docs[k + 1], session.username) >= 2
    ensures !SessionValid(s.docs[k + 1], session)
  {
    EndingIsNoDeletion(s.docs[k], s.ops[k], session.username);
    RevokedFromVersionTwo(s.docs, s.ops, k, k, k + 1, session);
  }

  lemma EndingIsNoDeletion(d: Document, op: Op, name: string)
    requires EndsSessions(d, op, name)
    ensures op != Delete(name)
  {}
}
