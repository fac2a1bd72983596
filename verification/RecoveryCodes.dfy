/** Replicas changing one stored identity document by compare-and-swap with retries, and how often a
    recovery code can be spent (apps/api/internal/auth/users.go, kubernetes_identity.go). */
module RecoveryCodes {
  import opened Common
  import opened ProviderNames
  import opened IdentityDocument
  import opened IdentityInvariants
  import opened IdentityHistories

  // ---------- one mutation ----------

  /** How many copies of the code the account holds. */
  function Held(d: Document, name: string, hash: string): nat {
    var u := Account(d, name);
    if u.Some? then multiset(u.value.codes)[hash] else 0
  }

  function Issued(op: Op, name: string, hash: string): nat {
    if op.BeginMfa? && op.username == name then multiset(op.hashes)[hash] else 0
  }

  function Spent(op: Op, name: string, hash: string): nat { if op == UseRecoveryCode(name, hash) then 1 else 0 }

  lemma {:induction false} RemoveOne(codes: seq<string>, at: nat)
    requires at < |codes|
    ensures multiset(codes) == multiset(codes[..at] + codes[at + 1..]) + multiset{codes[at]}
  {
    assert codes == codes[..at] + [codes[at]] + codes[at + 1..];
  }

  /** What a mutation of the account makes of its codes. */
  predicate CodesBecome(op: Op, before: seq<string>, after: seq<string>) {
    if op.UseRecoveryCode? then
      var at := FirstIndex(before, op.hash);
      at.Some? && after == before[..at.value] + before[at.value + 1..]
    else if op.BeginMfa? then after == op.hashes
    else if op.DisableMfa? || (op.UpdateAdmin? && op.resetMfa) then after == []
    else after == before
  }

  lemma {:induction false} CodesCounted(op: Op, before: seq<string>, after: seq<string>, name: string, hash: string)
    requires CodesBecome(op, before, after) && (op.UseRecoveryCode? || op.BeginMfa? ==> op.username == name)
    ensures multiset(after)[hash] + Spent(op, name, hash) <= multiset(before)[hash] + Issued(op, name, hash)
  {
    if op.UseRecoveryCode? {
      RemoveOne(before, FirstIndex(before, op.hash).value);
    }
  }

  lemma {:induction false} InPlaceCodes(stored: Document, op: Op, name: string, hash: string)
    requires Apply(stored, op).Ok? && InPlace(op) && op.username == name
    ensures Held(Apply(stored, op).value, name, hash) + Spent(op, name, hash) <=
      Held(stored, name, hash) + Issued(op, name, hash)
  {
    var i, u := InPlaceFrame(stored, op, name);
    CodesOfAccount(stored, op, i, u);
    CodesCounted(op, stored.users[i].codes, u.codes, name, hash);
  }

  lemma {:induction false} CodesOfAccount(stored: Document, op: Op, i: nat, u: User)
    requires InPlace(op) && Find(stored.users, op.username) == Some(i)
    requires Apply(stored, op) == Ok(Document(NormalizedPolicy(stored.policy), stored.users[i := u]))
    ensures CodesBecome(op, stored.users[i].codes, u.codes)
  {
    var d := stored.(policy := NormalizedPolicy(stored.policy));
    match op
    case UpdateAdmin(_, _, _, _, _, _, _) => CodesAfterUpdate(d, op, i, u);
    case ChangePassword(_, _, _, _) => CodesAfterChange(d, op, i, u);
    case ChangeEmail(_, _, _) => CodesAfterChange(d, op, i, u);
    case UseRecoveryCode(name, hash) => CodesAfterUse(d, name, hash, i, u);
    case BeginMfa(_, _, _, _) => CodesAfterMfa(d, op, i, u);
    case ConfirmMfa(_, _) => CodesAfterMfa(d, op, i, u);
    case DisableMfa(_, _, _) => CodesAfterMfa(d, op, i, u);
  }

  lemma {:induction false} CodesAfterUpdate(d: Document, op: Op, i: nat, u: User)
    requires op.UpdateAdmin? && Find(d.users, op.username) == Some(i)
    requires ApplyUpdateAdmin(d, op) == Ok(d.(users := d.users[i := u]))
    ensures CodesBecome(op, d.users[i].codes, u.codes)
  {
    var i', u' := UpdateAdminShape(d, op);
    assert d.users[i := u][i] == d.users[i := u'][i];
    CodesAfterReset(d.policy, d.users[i], op);
  }

  lemma {:induction false} CodesAfterReset(policy: SecurityPolicy, u: User, op: Op)
    requires op.UpdateAdmin? && Reset(policy, Edited(u, op), op).Ok?
    ensures CodesBecome(op, u.codes, Reset(policy, Edited(u, op), op).value.codes)
  {}

  lemma {:induction false} CodesAfterChange(d: Document, op: Op, i: nat, u: User)
    requires (op.ChangePassword? || op.ChangeEmail?) && Find(d.users, op.username) == Some(i)
    requires op.ChangePassword? ==> ApplyChangePassword(d, op) == Ok(d.(users := d.users[i := u]))
    requires op.ChangeEmail? ==> ApplyChangeEmail(d, op) == Ok(d.(users := d.users[i := u]))
    ensures CodesBecome(op, d.users[i].codes, u.codes)
  {
    assert d.users[i := u][i] == u;
  }

  lemma {:induction false} CodesAfterMfa(d: Document, op: Op, i: nat, u: User)
    requires (op.BeginMfa? || op.ConfirmMfa? || op.DisableMfa?) && Find(d.users, op.username) == Some(i)
    requires ApplyMfa(d, op) == Ok(d.(users := d.users[i := u]))
    ensures CodesBecome(op, d.users[i].codes, u.codes)
  {
    assert d.users[i := u][i] == u;
  }

  lemma {:induction false} CodesAfterUse(d: Document, name: string, hash: string, i: nat, u: User)
    requires Find(d.users, name) == Some(i)
    requires ApplyRecoveryCode(d, name, hash) == Ok(d.(users := d.users[i := u]))
    ensures CodesBecome(UseRecoveryCode(name, hash), d.users[i].codes, u.codes)
  {
    assert d.users[i := u][i] == u;
  }

  lemma {:induction false} CreatedHoldsNone(stored: Document, op: Op, hash: string)
    requires op.Create? && Apply(stored, op).Ok?
    ensures Held(Apply(stored, op).value, Trim(op.username), hash) == 0
  {
    FindUnique(Apply(stored, op).value.users, Some(|stored.users|), Trim(op.username));
  }

  lemma {:induction false} DeletedHoldsNone(stored: Document, name: string, hash: string)
    requires Apply(stored, Delete(name)).Ok? && NamesOK(stored.users)
    ensures Held(Apply(stored, Delete(name)).value, name, hash) == 0
  {
    var after, i := Apply(stored, Delete(name)).value.users, Find(stored.users, name).value;
    assert forall j :: 0 <= j < |after| ==> after[j] == stored.users[if j < i then j else j + 1];
    FindUnique(after, None, name);
  }

  /** Copies of a code are created only by an enrollment and each success with it destroys one. */
  lemma {:induction false} CodesStep(stored: Document, op: Op, name: string, hash: string)
    requires Apply(stored, op).Ok? && NamesOK(stored.users)
    ensures Held(Apply(stored, op).value, name, hash) + Spent(op, name, hash) <=
      Held(stored, name, hash) + Issued(op, name, hash)
  {
    var after := Apply(stored, op).value;
    if !Concerns(op, name) {
      OthersUntouched(stored, op, name);
    } else if InPlace(op) {
      InPlaceCodes(stored, op, name, hash);
    } else {
      match op
      case SetPolicy(p) => FindPolicy(stored.(policy := NormalizedPolicy(stored.policy)), p, name);
      case Create(_, _, _, _, _) => CreatedHoldsNone(stored, op, hash);
      case Delete(_) => DeletedHoldsNone(stored, name, hash);
      case Rehash(_, _, _) =>
        if after.users != stored.users {
          var i := Find(stored.users, name).value;
          PutAccount(stored.users, i, after.users[i], after.policy, name);
        }
      case RecordAuthentication(_) =>
    }
  }

  // ---------- replicas ----------

  const ATTEMPTS: nat := 5

  datatype Outcome = Committed | Refused | Unknown

  /** One call of mutate on some replica. `used` is the variable VerifySecondFactor's closure sets; it
      is not reset when the update is retried. */
  datatype Call =
    | Trying(op: Op, left: nat, used: bool)
    | Ready(op: Op, left: nat, used: bool, version: nat, next: Document)
    | Done(op: Op, used: bool, outcome: Outcome)

  datatype Commit = Commit(call: nat, op: Op)

  /** The Secret with its version, the calls on all replicas, and, as history, every document stored so
      far and the calls that stored them. */
  datatype System = System(version: nat, stored: Document, calls: map<nat, Call>, past: seq<Document>, log: seq<Commit>)

  ghost predicate Start(s: System, s': System, id: nat, op: Op) {
    id !in s.calls && s' == s.(calls := s.calls[id := Trying(op, ATTEMPTS, false)])
  }

  /** Read the Secret and apply the change to the copy. */
  ghost predicate Read(s: System, s': System, id: nat) {
    && id in s.calls && s.calls[id].Trying?
    && var c := s.calls[id];
       var r := Apply(s.stored, c.op);
       s' == s.(calls := s.calls[id :=
         if r.Err? then Done(c.op, c.used, Refused)
         else Ready(c.op, c.left, c.used || c.op.UseRecoveryCode?, s.version, r.value)])
  }

  /** The Secret cannot be read or decoded, the document cannot be encoded, or the write is rejected. */
  ghost predicate Fail(s: System, s': System, id: nat) {
    && id in s.calls && !s.calls[id].Done?
    && s' == s.(calls := s.calls[id := Done(s.calls[id].op, s.calls[id].used, Refused)])
  }

  /** The write meets the version it was read at; the reply may be lost on the way back. */
  ghost predicate Write(s: System, s': System, id: nat, replied: bool) {
    && id in s.calls && s.calls[id].Ready? && s.calls[id].version == s.version
    && var c := s.calls[id];
       s' == System(s.version + 1, c.next,
         s.calls[id := Done(c.op, c.used, if replied then Committed else Unknown)],
         s.past + [c.next], s.log + [Commit(id, c.op)])
  }

  /** The write meets another version: try again, at most ATTEMPTS times in all. */
  ghost predicate Conflict(s: System, s': System, id: nat) {
    && id in s.calls && s.calls[id].Ready? && s.calls[id].version != s.version
    && var c := s.calls[id];
       s' == s.(calls := s.calls[id :=
         if c.left > 1 then Trying(c.op, c.left - 1, c.used) else Done(c.op, c.used, Refused)])
  }

  datatype Step =
    | StartStep(id: nat, op: Op) | ReadStep(id: nat) | FailStep(id: nat) | WriteStep(id: nat, replied: bool)
    | ConflictStep(id: nat)

  ghost predicate Next(s: System, s': System, step: Step) {
    match step
    case StartStep(id, op) => Start(s, s', id, op)
    case ReadStep(id) => Read(s, s', id)
    case FailStep(id) => Fail(s, s', id)
    case WriteStep(id, replied) => Write(s, s', id, replied)
    case ConflictStep(id) => Conflict(s, s', id)
  }

  ghost predicate Initial(s: System) {
    s.calls == map[] && s.past == [s.stored] && s.log == [] && s.version == 0
  }

  ghost predicate Run(states: seq<System>, steps: seq<Step>) {
    && |states| == |steps| + 1 && Initial(states[0])
    && forall k :: 0 <= k < |steps| ==> Next(states[k], states[k + 1], steps[k])
  }

  function Ops(log: seq<Commit>): (ops: seq<Op>)
    ensures |ops| == |log| && forall k :: 0 <= k < |log| ==> ops[k] == log[k].op
  {
    seq(|log|, k requires 0 <= k < |log| => log[k].op)
  }

  /** The stored documents follow each other by the logged mutations, each applied as a whole. */
  ghost predicate Atomic(s: System) {
    && |s.past| == s.version + 1 && s.past[s.version] == s.stored
    && History(s.past, Ops(s.log))
  }

  predicate CallOK(s: System, c: Call) {
    match c
    case Trying(_, _, _) => true
    case Ready(op, _, used, version, next) =>
      version < |s.past| && Apply(s.past[version], op) == Ok(next) && (op.UseRecoveryCode? ==> used)
    case Done(op, used, outcome) => outcome == Committed && op.UseRecoveryCode? ==> used
  }

  ghost predicate CallsOK(s: System) {
    forall id :: id in s.calls ==> CallOK(s, s.calls[id])
  }

  predicate Stored(commit: Commit, c: Call) { c.Done? && c.outcome != Refused && c.op == commit.op }

  /** A call is in the log at most once: never while it runs or when it was refused, and exactly once
      when it reported success. */
  ghost predicate LogOK(s: System) {
    && (forall k :: 0 <= k < |s.log| ==> s.log[k].call in s.calls && Stored(s.log[k], s.calls[s.log[k].call]))
    && (forall j, k :: 0 <= j < k < |s.log| ==> s.log[j].call != s.log[k].call)
    && (forall id :: id in s.calls && s.calls[id].Done? && s.calls[id].outcome == Committed ==> InLog(s.log, id))
  }

  ghost predicate InLog(log: seq<Commit>, id: nat) { exists k :: 0 <= k < |log| && log[k].call == id }

  ghost predicate Inv(s: System) { Atomic(s) && CallsOK(s) && LogOK(s) }

  lemma HistoryGrows(docs: seq<Document>, ops: seq<Op>, op: Op, next: Document)
    requires History(docs, ops) && Apply(docs[|ops|], op) == Ok(next)
    ensures History(docs + [next], ops + [op])
  {}

  lemma StepKeepsAtomic(s: System, s': System, step: Step)
    requires Atomic(s) && CallsOK(s) && Next(s, s', step)
    ensures Atomic(s')
  {
    if step.WriteStep? {
      var c := s.calls[step.id];
      assert CallOK(s, c);
      assert Ops(s'.log) == Ops(s.log) + [c.op];
      HistoryGrows(s.past, Ops(s.log), c.op, c.next);
    }
  }

  lemma StepKeepsCalls(s: System, s': System, step: Step)
    requires Atomic(s) && CallsOK(s) && Next(s, s', step)
    ensures CallsOK(s')
  {}

  lemma StepKeepsLog(s: System, s': System, step: Step)
    requires LogOK(s) && Next(s, s', step)
    ensures LogOK(s')
  {
    forall id | id in s'.calls && s'.calls[id].Done? && s'.calls[id].outcome == Committed
      ensures InLog(s'.log, id)
    {
      if step.WriteStep? && step.id == id {
        assert s'.log[|s.log|].call == id;
      } else {
        assert InLog(s.log, id);
        var k :| 0 <= k < |s.log| && s.log[k].call == id;
        assert s'.log[k].call == id;
      }
    }
  }

  lemma {:induction false} RunKeepsInv(states: seq<System>, steps: seq<Step>, n: nat)
    requires Run(states, steps) && n < |states|
    ensures Inv(states[n]) && states[n].past[0] == states[0].stored
  {
    if n > 0 {
      RunKeepsInv(states, steps, n - 1);
      var s, s', step := states[n - 1], states[n - 1 + 1], steps[n - 1];
      assert Next(s, s', step);
      StepKeepsAtomic(s, s', step);
      StepKeepsCalls(s, s', step);
      StepKeepsLog(s, s', step);
    }
  }

  lemma {:induction false} NextUsersOK(stored: Document, op: Op, next: Document)
    requires UsersOK(stored.users) && Apply(stored, op) == Ok(next)
    ensures UsersOK(next.users)
  {
    ApplyKeepsUsersOK(stored, op);
  }

  /** Every document the replicas ever store keeps the identity invariants. */
  lemma {:induction false} StoredDocumentsKeepUsersOK(states: seq<System>, steps: seq<Step>, n: nat, k: nat)
    requires Run(states, steps) && n < |states| && UsersOK(states[0].stored.users)
    requires k < |states[n].past|
    ensures UsersOK(states[n].past[k].users)
    decreases k
  {
    RunKeepsInv(states, steps, n);
    if k > 0 {
      StoredDocumentsKeepUsersOK(states, steps, n, k - 1);
      var past, op := states[n].past, Ops(states[n].log)[k - 1];
      assert Apply(past[k - 1], op) == Ok(past[k - 1 + 1]);
      NextUsersOK(past[k - 1], op, past[k]);
    }
  }

  /** A call that was refused never changed the store, and one that succeeded changed it once. */
  lemma {:induction false} RefusedCallsLeaveNoTrace(states: seq<System>, steps: seq<Step>, n: nat, id: nat)
    requires Run(states, steps) && n < |states| && id in states[n].calls && states[n].calls[id].Done?
    ensures states[n].calls[id].outcome == Refused ==> forall k :: 0 <= k < |states[n].log| ==> states[n].log[k].call != id
    ensures states[n].calls[id].outcome == Committed ==> InLog(states[n].log, id)
    ensures forall j, k :: 0 <= j < k < |states[n].log| ==> !(states[n].log[j].call == id && states[n].log[k].call == id)
  {
    RunKeepsInv(states, steps, n);
  }

  // ---------- spending a code ----------

  function IssuedBy(log: seq<Commit>, name: string, hash: string): nat {
    if log == [] then 0 else IssuedBy(log[..|log| - 1], name, hash) + Issued(log[|log| - 1].op, name, hash)
  }

  /** The calls that stored a document with the code spent. */
  function Spenders(log: seq<Commit>, name: string, hash: string): set<nat> {
    if log == [] then {}
    else
      var last := log[|log| - 1];
      Spenders(log[..|log| - 1], name, hash) + if Spent(last.op, name, hash) == 1 then {last.call} else {}
  }

  /** VerifySecondFactor let the user in by the recovery code. */
  predicate LoggedIn(c: Call, name: string, hash: string) {
    c.Done? && c.op == UseRecoveryCode(name, hash) && c.outcome == Committed && c.used
  }

  /** The flag that survives a retry never decides: a call lets the user in exactly when it stored a
      document with the code spent. */
  lemma {:induction false} RetriedFlagIsHarmless(states: seq<System>, steps: seq<Step>, n: nat, id: nat, name: string, hash: string)
    requires Run(states, steps) && n < |states| && id in states[n].calls
    requires states[n].calls[id].Done? && states[n].calls[id].op == UseRecoveryCode(name, hash)
    ensures LoggedIn(states[n].calls[id], name, hash) <==> states[n].calls[id].outcome == Committed
    ensures LoggedIn(states[n].calls[id], name, hash) ==> id in Spenders(states[n].log, name, hash)
  {
    RunKeepsInv(states, steps, n);
    var log := states[n].log;
    if states[n].calls[id].outcome == Committed {
      assert InLog(log, id);
      var k :| 0 <= k < |log| && log[k].call == id;
      SpendersAre(log, k, name, hash);
    }
  }

  lemma {:induction false} SpendersAre(log: seq<Commit>, k: nat, name: string, hash: string)
    requires k < |log| && log[k].op == UseRecoveryCode(name, hash)
    ensures log[k].call in Spenders(log, name, hash)
    decreases |log|
  {
    if k < |log| - 1 { SpendersAre(log[..|log| - 1], k, name, hash); }
  }

  ghost predicate Linked(docs: seq<Document>, log: seq<Commit>) {
    && |docs| == |log| + 1
    && forall k :: 0 <= k < |log| ==> NamesOK(docs[k].users) && Apply(docs[k], log[k].op) == Ok(docs[k + 1])
  }

  lemma {:induction false} CodesConserved(docs: seq<Document>, log: seq<Commit>, name: string, hash: string)
    requires Linked(docs, log)
    ensures Held(docs[|log|], name, hash) + |Spenders(log, name, hash)| <=
      Held(docs[0], name, hash) + IssuedBy(log, name, hash)
    decreases |log|
  {
    if log != [] {
      var n := |log| - 1;
      var rest := docs[..|log|];
      assert Linked(rest, log[..n]) by {
        assert forall k :: 0 <= k < n ==> NamesOK(docs[k].users) && Apply(docs[k], log[k].op) == Ok(docs[k + 1]);
      }
      CodesConserved(rest, log[..n], name, hash);
      assert NamesOK(docs[n].users) && Apply(docs[n], log[n].op) == Ok(docs[n + 1]);
      CodesStep(docs[n], log[n].op, name, hash);
    }
  }

  /** However many replicas race and retry, the logins that succeed with a recovery code are at most the
      copies of it the account held at first and those enrollments stored since. */
  lemma {:induction false} LoginsByCodeBounded(states: seq<System>, steps: seq<Step>, n: nat, logins: set<nat>, name: string, hash: string)
    requires Run(states, steps) && n < |states| && UsersOK(states[0].stored.users)
    requires forall id :: id in logins ==> id in states[n].calls && LoggedIn(states[n].calls[id], name, hash)
    ensures |logins| + Held(states[n].stored, name, hash) <=
      Held(states[0].stored, name, hash) + IssuedBy(states[n].log, name, hash)
  {
    RunKeepsInv(states, steps, n);
    var s := states[n];
    forall k | 0 <= k < |s.log|
      ensures NamesOK(s.past[k].users) && Apply(s.past[k], s.log[k].op) == Ok(s.past[k + 1])
    {
      StoredDocumentsKeepUsersOK(states, steps, n, k);
      assert Apply(s.past[k], Ops(s.log)[k]) == Ok(s.past[k + 1]);
    }
    CodesConserved(s.past, s.log, name, hash);
    forall id | id in logins
      ensures id in Spenders(s.log, name, hash)
    {
      RetriedFlagIsHarmless(states, steps, n, id, name, hash);
    }
    Subset(logins, Spenders(s.log, name, hash));
  }

  /** A code issued once lets at most one login through, over all replicas. */
  lemma {:induction false} CodeWorksOnce(states: seq<System>, steps: seq<Step>, n: nat, a: nat, b: nat, name: string, hash: string)
    requires Run(states, steps) && n < |states| && UsersOK(states[0].stored.users)
    requires Held(states[0].stored, name, hash) + IssuedBy(states[n].log, name, hash) <= 1
    requires a in states[n].calls && LoggedIn(states[n].calls[a], name, hash)
    requires b in states[n].calls && LoggedIn(states[n].calls[b], name, hash)
    ensures a == b
    ensures Held(states[n].stored, name, hash) == 0
  {
    LoginsByCodeBounded(states, steps, n, {a, b}, name, hash);
    assert a != b ==> |{a, b}| == 2;
  }
}
