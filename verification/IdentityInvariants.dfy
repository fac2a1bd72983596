/** What every successful mutation of the identity document keeps, and when sessions are revoked
    (apps/api/internal/auth/users.go). */
module IdentityInvariants {
  import opened Common
  import opened ProviderNames
  import opened IdentityDocument

  ghost predicate NamesOK(users: seq<User>) {
    && (forall i :: 0 <= i < |users| ==> users[i].username != "" && Trim(users[i].username) == users[i].username)
    && (forall i, j :: 0 <= i < j < |users| ==> users[i].username != users[j].username)
  }

  ghost predicate EmailsOK(users: seq<User>) {
    forall i, j :: 0 <= i < j < |users| && users[i].email != "" && users[j].email != "" ==>
      Lower(users[i].email) != Lower(users[j].email)
  }

  ghost predicate PasswordsOK(users: seq<User>) {
    forall i :: 0 <= i < |users| ==> users[i].password.Hash?
  }

  /** Usable passwords, distinct trimmed names, distinct folded e-mail addresses, an active admin. */
  ghost predicate UsersOK(users: seq<User>) {
    NamesOK(users) && EmailsOK(users) && PasswordsOK(users) && ActiveAdmins(users) >= 1
  }

  // ---------- counting admins ----------

  function Weight(u: User): nat { if Active(u) then 1 else 0 }

  lemma {:induction false} AdminsAppend(a: seq<User>, b: seq<User>)
    ensures ActiveAdmins(a + b) == ActiveAdmins(a) + ActiveAdmins(b)
    decreases |b|
  {
    if b == [] {
      assert a + b == a;
    } else {
      assert (a + b)[..|a + b| - 1] == a + b[..|b| - 1];
      AdminsAppend(a, b[..|b| - 1]);
    }
  }

  lemma {:induction false} AdminsSplit(users: seq<User>, i: nat)
    requires i < |users|
    ensures ActiveAdmins(users) == ActiveAdmins(Without(users, i)) + Weight(users[i])
  {
    var before, here, rest := users[..i], users[..i + 1], users[i + 1..];
    AdminsAppend(here, rest);
    AdminsAppend(before, rest);
    assert users == here + rest && here[..i] == before;
  }

  lemma {:induction false} AdminsPut(users: seq<User>, i: nat, u: User)
    requires i < |users|
    ensures ActiveAdmins(users[i := u]) == ActiveAdmins(Without(users, i)) + Weight(u)
  {
    var after := users[i := u];
    AdminsSplit(after, i);
    assert Without(after, i) == Without(users, i);
  }

  // ---------- the invariant ----------

  lemma PutKeepsEmails(users: seq<User>, i: nat, u: User)
    requires i < |users| && EmailsOK(users)
    requires forall j :: 0 <= j < |users| && j != i && users[j].email != "" && u.email != "" ==>
      Lower(users[j].email) != Lower(u.email)
    ensures EmailsOK(users[i := u])
  {}

  /** A change of one account that leaves its name alone, gives it no e-mail address another account
      has, and does not take away the last active admin. */
  lemma {:induction false} PutKeepsUsersOK(users: seq<User>, i: nat, u: User)
    requires UsersOK(users) && i < |users|
    requires u.username == users[i].username && u.password.Hash?
    requires u.email == users[i].email || u.email == "" || !EmailInUse(users, u.email, u.username)
    requires Active(users[i]) && !Active(u) ==> ActiveAdmins(users[i := u]) >= 1
    ensures UsersOK(users[i := u])
  {
    AdminsPut(users, i, u);
    AdminsSplit(users, i);
    PutKeepsEmails(users, i, u) by {
      forall j | 0 <= j < |users| && j != i && users[j].email != "" && u.email != ""
        ensures Lower(users[j].email) != Lower(u.email)
      {
        assert users[j].username != u.username;
      }
    }
  }

  lemma {:induction false} WithoutKeepsUsersOK(users: seq<User>, i: nat)
    requires UsersOK(users) && i < |users|
    requires Active(users[i]) ==> ActiveAdmins(users) > 1
    ensures UsersOK(Without(users, i))
  {
    AdminsSplit(users, i);
    WithoutKeepsNames(users, i, Without(users, i));
  }

  lemma WithoutKeepsNames(users: seq<User>, i: nat, after: seq<User>)
    requires NamesOK(users) && EmailsOK(users) && PasswordsOK(users) && i < |users| && after == Without(users, i)
    ensures NamesOK(after) && EmailsOK(after) && PasswordsOK(after)
  {
    assert forall j :: 0 <= j < |after| ==> after[j] == users[if j < i then j else j + 1];
  }

  lemma {:induction false} AddKeepsUsersOK(users: seq<User>, u: User)
    requires UsersOK(users) && u.username != "" && Trim(u.username) == u.username && u.password.Hash?
    requires forall i :: 0 <= i < |users| ==> users[i].username != u.username
    requires u.email == "" || !EmailInUse(users, u.email, "")
    ensures UsersOK(users + [u])
  {
    AdminsAppend(users, [u]);
  }

  lemma TrimIdempotent(s: string)
    ensures Trim(Trim(s)) == Trim(s)
  {
    var t := Trim(s);
    if t != "" { assert t[0] == TrimLeft(s)[0]; }
  }

  /** The account an administrator's update stores. */
  lemma {:induction false} UpdateAdminShape(d: Document, op: Op) returns (i: nat, u: User)
    requires op.UpdateAdmin? && ApplyUpdateAdmin(d, op).Ok?
    ensures Find(d.users, op.username) == Some(i) && ApplyUpdateAdmin(d, op).value == d.(users := d.users[i := u])
    ensures Reset(d.policy, Edited(d.users[i], op), op) == Ok(u)
    ensures u.username == d.users[i].username && u.email == Edited(d.users[i], op).email
    ensures Active(u) == Active(Edited(d.users[i], op))
    ensures d.users[i].password.Hash? ==> u.password.Hash?
    ensures u.sessionVersion > d.users[i].sessionVersion
    ensures u.email != "" && op.newEmail.Some? ==> !EmailInUse(d.users, u.email, u.username)
    ensures Active(d.users[i]) && !Active(u) ==> ActiveAdmins(d.users[i := Edited(d.users[i], op)]) > 1
  {
    i := Find(d.users, op.username).value;
    u := ApplyUpdateAdmin(d, op).value.users[i];
  }

  lemma {:induction false} UpdateAdminKeeps(d: Document, op: Op)
    requires op.UpdateAdmin? && UsersOK(d.users) && ApplyUpdateAdmin(d, op).Ok?
    ensures UsersOK(ApplyUpdateAdmin(d, op).value.users)
  {
    var i, u := UpdateAdminShape(d, op);
    AdminsPut(d.users, i, Edited(d.users[i], op));
    AdminsPut(d.users, i, u);
    PutKeepsUsersOK(d.users, i, u);
  }

  lemma {:induction false} OwnAccountKeeps(d: Document, op: Op)
    requires UsersOK(d.users)
    requires op.ChangePassword? || op.ChangeEmail?
    ensures op.ChangePassword? && ApplyChangePassword(d, op).Ok? ==> UsersOK(ApplyChangePassword(d, op).value.users)
    ensures op.ChangeEmail? && ApplyChangeEmail(d, op).Ok? ==> UsersOK(ApplyChangeEmail(d, op).value.users)
  {
    var own := OwnAccount(d, op.username, op.current);
    if own.Ok? {
      var i := own.value;
      if op.ChangePassword? && ApplyChangePassword(d, op).Ok? {
        PutKeepsUsersOK(d.users, i, ApplyChangePassword(d, op).value.users[i]);
      }
      if op.ChangeEmail? && ApplyChangeEmail(d, op).Ok? {
        PutKeepsUsersOK(d.users, i, ApplyChangeEmail(d, op).value.users[i]);
      }
    }
  }

  lemma {:induction false} MfaKeeps(d: Document, op: Op)
    requires UsersOK(d.users) && (op.BeginMfa? || op.ConfirmMfa? || op.DisableMfa?) && ApplyMfa(d, op).Ok?
    ensures UsersOK(ApplyMfa(d, op).value.users)
  {
    var i := Find(d.users, op.username).value;
    PutKeepsUsersOK(d.users, i, ApplyMfa(d, op).value.users[i]);
  }

  lemma {:induction false} PolicyKeeps(d: Document, policy: SecurityPolicy)
    requires UsersOK(d.users)
    ensures UsersOK(ApplyPolicy(d, policy).users)
  {
    var after := ApplyPolicy(d, policy).users;
    assert forall i :: 0 <= i < |d.users| ==> after[i].(sessionVersion := 0) == d.users[i].(sessionVersion := 0);
    SameActives(d.users, after);
    SameUsersOK(d.users, after);
  }

  lemma {:induction false} SameUsersOK(a: seq<User>, b: seq<User>)
    requires UsersOK(a) && |a| == |b| && ActiveAdmins(a) == ActiveAdmins(b)
    requires forall i :: 0 <= i < |a| ==> a[i].(sessionVersion := 0) == b[i].(sessionVersion := 0)
    ensures UsersOK(b)
  {
    assert forall i :: 0 <= i < |a| ==> a[i].username == b[i].username && a[i].email == b[i].email;
    assert forall i :: 0 <= i < |a| ==> a[i].password == b[i].password;
  }

  lemma {:induction false} SameActives(a: seq<User>, b: seq<User>)
    requires |a| == |b| && forall i :: 0 <= i < |a| ==> Active(a[i]) == Active(b[i])
    ensures ActiveAdmins(a) == ActiveAdmins(b)
  {
    if a != [] { SameActives(a[..|a| - 1], b[..|b| - 1]); }
  }

  lemma {:induction false} CreateKeeps(d: Document, op: Op)
    requires op.Create? && UsersOK(d.users) && ApplyCreate(d, op).Ok?
    ensures UsersOK(ApplyCreate(d, op).value.users)
  {
    TrimIdempotent(op.username);
    AddKeepsUsersOK(d.users, ApplyCreate(d, op).value.users[|d.users|]);
  }

  lemma {:induction false} RecoveryCodeKeeps(d: Document, name: string, hash: string)
    requires UsersOK(d.users) && ApplyRecoveryCode(d, name, hash).Ok?
    ensures UsersOK(ApplyRecoveryCode(d, name, hash).value.users)
  {
    var i := Find(d.users, name).value;
    PutKeepsUsersOK(d.users, i, ApplyRecoveryCode(d, name, hash).value.users[i]);
  }

  lemma {:induction false} RehashKeeps(d: Document, name: string, expected: Stored, salt: nat)
    requires UsersOK(d.users)
    ensures UsersOK(Rehashed(d, name, expected, salt).users)
  {
    if Rehashed(d, name, expected, salt) != d {
      var i := Find(d.users, name).value;
      PutKeepsUsersOK(d.users, i, Rehashed(d, name, expected, salt).users[i]);
    }
  }

  /** Every mutation that succeeds keeps the identity invariants. */
  lemma {:induction false} ApplyKeepsUsersOK(stored: Document, op: Op)
    requires UsersOK(stored.users) && Apply(stored, op).Ok?
    ensures UsersOK(Apply(stored, op).value.users)
  {
    var d := stored.(policy := NormalizedPolicy(stored.policy));
    match op
    case Create(_, _, _, _, _) => CreateKeeps(d, op);
    case UpdateAdmin(_, _, _, _, _, _, _) => UpdateAdminKeeps(d, op);
    case Delete(name) => WithoutKeepsUsersOK(d.users, Find(d.users, name).value);
    case ChangePassword(_, _, _, _) => OwnAccountKeeps(d, op);
    case ChangeEmail(_, _, _) => OwnAccountKeeps(d, op);
    case BeginMfa(_, _, _, _) => MfaKeeps(d, op);
    case ConfirmMfa(_, _) => MfaKeeps(d, op);
    case DisableMfa(_, _, _) => MfaKeeps(d, op);
    case UseRecoveryCode(name, hash) => RecoveryCodeKeeps(d, name, hash);
    case SetPolicy(p) => PolicyKeeps(d, p);
    case Rehash(name, expected, salt) => RehashKeeps(d, name, expected, salt);
    case RecordAuthentication(_) =>
  }

  /** The last-admin guard of an update counts the admins that remain after the change. So of all updates,
      whatever they change, it refuses exactly those that take an active admin away and leave at most one
      other: with exactly two the update is refused although it would be safe. */
  lemma {:induction false} DemotionRefusedExactly(stored: Document, op: Op)
    requires op.UpdateAdmin?
    ensures Apply(stored, op) == Err(LastAdmin) <==>
      && Find(stored.users, op.username).Some? && EmailProblem(stored.users, op) == None
      && var i := Find(stored.users, op.username).value;
         Active(stored.users[i]) && !Active(Edited(stored.users[i], op)) && ActiveAdmins(Without(stored.users, i)) <= 1
  {
    if Find(stored.users, op.username).Some? {
      var i := Find(stored.users, op.username).value;
      AdminsPut(stored.users, i, Edited(stored.users[i], op));
    }
  }

  /** Deletion has no such gap: it is refused exactly when no other active admin remains. */
  lemma {:induction false} DeletionRefusedExactly(stored: Document, name: string, i: nat)
    requires i < |stored.users| && Find(stored.users, name) == Some(i) && Active(stored.users[i])
    ensures Apply(stored, Delete(name)) == Err(LastAdmin) <==> ActiveAdmins(Without(stored.users, i)) == 0
  {
    AdminsSplit(stored.users, i);
  }

  // ---------- sessions ----------

  datatype Session = Session(username: string, role: Role, version: int)

  /** applyDocumentLocked gives accounts without a version the version 1. */
  function Effective(v: int): int { if v < 1 then 1 else v }

  function SessionFor(u: User): Session { Session(u.username, u.role, Effective(u.sessionVersion)) }

  /** A session a replica that has applied the document gives an account that signs in. */
  predicate IssuedBy(d: Document, s: Session) {
    var found := Find(d.users, s.username);
    found.Some? && s == SessionFor(d.users[found.value])
  }

  /** ValidateSession against a replica that has applied the document. */
  predicate SessionValid(d: Document, s: Session) {
    var found := Find(d.users, s.username);
    found.Some? &&
    var u := d.users[found.value];
    !u.disabled && Effective(u.sessionVersion) == s.version && u.role == s.role
  }

  /** The operations after which old sessions of the account must not work. */
  predicate Revokes(op: Op, name: string) {
    (op.UpdateAdmin? || op.ChangePassword? || op.ChangeEmail? || op.ConfirmMfa? || op.DisableMfa?) && op.username == name
  }

  /** The account must now have a second factor, by a new mode, and has none. */
  predicate NeedsFactor(stored: Document, policy: SecurityPolicy, name: string) {
    var found := Find(stored.users, name);
    && found.Some? && NormalizedPolicy(stored.policy).mode != NormalizedPolicy(policy).mode
    && RequiresMfa(NormalizedPolicy(policy), stored.users[found.value].role) && !stored.users[found.value].mfa
  }

  /** The steps after which old sessions of the account must not work: those operations, and a change of
      the mode that leaves the account without a factor it needs. */
  predicate EndsSessions(stored: Document, op: Op, name: string) {
    Revokes(op, name) || (op.SetPolicy? && NeedsFactor(stored, op.policy, name))
  }

  function VersionOf(d: Document, name: string): int {
    var found := Find(d.users, name);
    if found.Some? then d.users[found.value].sessionVersion else 0
  }

  lemma {:induction false} FindPut(users: seq<User>, i: nat, u: User, name: string)
    requires i < |users| && u.username == users[i].username
    ensures Find(users[i := u], name) == Find(users, name)
  {
    FindUnique(users, Find(users, name), name);
    FindUnique(users[i := u], Find(users, name), name);
  }

  lemma {:induction false} FindUnique(users: seq<User>, r: Option<nat>, name: string)
    requires r.Some? ==> r.value < |users| && users[r.value].username == name
    requires r.Some? ==> forall i :: 0 <= i < r.value ==> users[i].username != name
    requires r == None ==> forall i :: 0 <= i < |users| ==> users[i].username != name
    ensures Find(users, name) == r
  {}

  lemma {:induction false} FindPolicy(d: Document, policy: SecurityPolicy, name: string)
    ensures Find(ApplyPolicy(d, policy).users, name) == Find(d.users, name)
  {
    FindUnique(ApplyPolicy(d, policy).users, Find(d.users, name), name);
  }

  lemma {:induction false} VersionPut(users: seq<User>, i: nat, u: User, name: string)
    requires i < |users| && Find(users, users[i].username) == Some(i) && Find(users, name).Some?
    requires u.username == users[i].username && u.sessionVersion >= users[i].sessionVersion
    ensures Find(users[i := u], name) == Find(users, name)
    ensures users[i := u][Find(users, name).value].sessionVersion >= users[Find(users, name).value].sessionVersion
    ensures name == u.username ==> Find(users, name) == Some(i)
  {
    FindPut(users, i, u, name);
  }

  lemma {:induction false} VersionOwn(stored: Document, op: Op, name: string)
    requires Apply(stored, op).Ok? && Find(stored.users, name).Some?
    requires op.ChangePassword? || op.ChangeEmail? || op.BeginMfa? || op.ConfirmMfa? || op.DisableMfa?
      || op.UseRecoveryCode?
    ensures VersionKept(stored, op, name)
  {
    var i := Find(stored.users, op.username).value;
    var after := Apply(stored, op).value.users;
    assert after == stored.users[i := after[i]];
    VersionPut(stored.users, i, after[i], name);
  }

  lemma {:induction false} VersionUpdateAdmin(stored: Document, op: Op, name: string)
    requires Apply(stored, op).Ok? && Find(stored.users, name).Some? && op.UpdateAdmin?
    ensures VersionKept(stored, op, name)
  {
    var i, u := UpdateAdminShape(stored.(policy := NormalizedPolicy(stored.policy)), op);
    VersionPut(stored.users, i, u, name);
  }

  /** The version of the account does not fall, and it rises if the operation revokes its sessions. */
  predicate VersionKept(stored: Document, op: Op, name: string)
    requires Apply(stored, op).Ok?
  {
    var after := Apply(stored, op).value;
    && Find(after.users, name).Some?
    && VersionOf(after, name) >= VersionOf(stored, name)
    && (Revokes(op, name) ==> VersionOf(after, name) > VersionOf(stored, name))
  }

  lemma {:induction false} PolicyRaises(stored: Document, policy: SecurityPolicy, name: string)
    requires NeedsFactor(stored, policy, name)
    ensures VersionOf(Apply(stored, SetPolicy(policy)).value, name) == VersionOf(stored, name) + 1
  {
    FindPolicy(stored.(policy := NormalizedPolicy(stored.policy)), policy, name);
  }

  /** Every successful mutation that does not delete the account keeps its version or raises it, and raises
      it if it ends the sessions. */
  lemma {:induction false} VersionStep(stored: Document, op: Op, name: string)
    requires Apply(stored, op).Ok? && Find(stored.users, name).Some? && op != Delete(name)
    ensures VersionKept(stored, op, name)
    ensures EndsSessions(stored, op, name) ==> VersionOf(Apply(stored, op).value, name) > VersionOf(stored, name)
  {
    VersionIsKept(stored, op, name);
    if op.SetPolicy? && NeedsFactor(stored, op.policy, name) { PolicyRaises(stored, op.policy, name); }
  }

  lemma {:induction false} VersionIsKept(stored: Document, op: Op, name: string)
    requires Apply(stored, op).Ok? && Find(stored.users, name).Some? && op != Delete(name)
    ensures VersionKept(stored, op, name)
  {
    var d := stored.(policy := NormalizedPolicy(stored.policy));
    var after := Apply(stored, op).value;
    var k := Find(d.users, name).value;
    match op
    case Create(_, _, _, _, _) => FindUnique(after.users, Some(k), name);
    case Delete(other) => VersionDelete(d.users, Find(d.users, other).value, name);
    case SetPolicy(p) => FindPolicy(d, p, name);
    case RecordAuthentication(_) =>
    case Rehash(other, _, _) =>
      if after != d {
        var i := Find(d.users, other).value;
        VersionPut(d.users, i, after.users[i], name);
      }
    case UpdateAdmin(_, _, _, _, _, _, _) => VersionUpdateAdmin(stored, op, name);
    case _ => VersionOwn(stored, op, name);
  }

  lemma {:induction false} VersionDelete(users: seq<User>, i: nat, name: string)
    requires i < |users| && Find(users, name).Some? && users[i].username != name
    ensures Find(Without(users, i), name).Some?
    ensures Without(users, i)[Find(Without(users, i), name).value] == users[Find(users, name).value]
  {
    var k := Find(users, name).value;
    var after := Without(users, i);
    assert forall j :: 0 <= j < |after| ==> after[j] == users[if j < i then j else j + 1];
    FindUnique(after, Some(if i < k then k - 1 else k), name);
  }

  /** docs[k + 1] is docs[k] after the successful mutation ops[k]. */
  ghost predicate History(docs: seq<Document>, ops: seq<Op>) {
    |docs| == |ops| + 1 && forall k :: 0 <= k < |ops| ==> Apply(docs[k], ops[k]) == Ok(docs[k + 1])
  }

  lemma {:induction false} VersionNeverFalls(docs: seq<Document>, ops: seq<Op>, j: nat, n: nat, name: string)
    requires History(docs, ops) && j <= n < |docs| && Find(docs[j].users, name).Some?
    requires forall k :: j <= k < n ==> ops[k] != Delete(name)
    ensures Find(docs[n].users, name).Some? && VersionOf(docs[n], name) >= VersionOf(docs[j], name)
    decreases n
  {
    if j < n {
      VersionNeverFalls(docs, ops, j, n - 1, name);
      assert Apply(docs[n - 1], ops[n - 1]) == Ok(docs[n - 1 + 1]);
      VersionStep(docs[n - 1], ops[n - 1], name);
    }
  }

  ghost predicate VersionsPositive(users: seq<User>) {
    forall i :: 0 <= i < |users| ==> users[i].sessionVersion >= 1
  }

  lemma {:induction false} OwnKeepsPositive(stored: Document, op: Op)
    requires VersionsPositive(stored.users) && Apply(stored, op).Ok?
    requires op.ChangePassword? || op.ChangeEmail? || op.BeginMfa? || op.ConfirmMfa? || op.DisableMfa? || op.UseRecoveryCode?
    ensures VersionsPositive(Apply(stored, op).value.users)
  {
    var i, after := Find(stored.users, op.username).value, Apply(stored, op).value.users;
    assert after == stored.users[i := after[i]] && after[i].sessionVersion >= stored.users[i].sessionVersion;
  }

  lemma {:induction false} DeleteKeepsPositive(d: Document, name: string)
    requires VersionsPositive(d.users) && ApplyDelete(d, name).Ok?
    ensures VersionsPositive(ApplyDelete(d, name).value.users)
  {
    var i, after := Find(d.users, name).value, ApplyDelete(d, name).value.users;
    assert forall j :: 0 <= j < |after| ==> after[j] == d.users[if j < i then j else j + 1];
  }

  lemma {:induction false} PolicyKeepsPositive(d: Document, policy: SecurityPolicy)
    requires VersionsPositive(d.users)
    ensures VersionsPositive(ApplyPolicy(d, policy).users)
  {}

  lemma {:induction false} ApplyKeepsVersionsPositive(stored: Document, op: Op)
    requires VersionsPositive(stored.users) && Apply(stored, op).Ok?
    ensures VersionsPositive(Apply(stored, op).value.users)
  {
    var d := stored.(policy := NormalizedPolicy(stored.policy));
    match op
    case UpdateAdmin(_, _, _, _, _, _, _) => var i, u := UpdateAdminShape(d, op);
    case Delete(name) => DeleteKeepsPositive(d, name);
    case SetPolicy(p) => PolicyKeepsPositive(d, p);
    case Rehash(_, _, _) =>
    case Create(_, _, _, _, _) =>
    case RecordAuthentication(_) =>
    case _ => OwnKeepsPositive(stored, op);
  }

  /** Every account is created or seeded with version 1, so the versions of a store that began that way are
      positive in every later document. */
  lemma {:induction false} VersionsStayPositive(docs: seq<Document>, ops: seq<Op>, n: nat)
    requires History(docs, ops) && n < |docs| && VersionsPositive(docs[0].users)
    ensures VersionsPositive(docs[n].users)
  {
    if n > 0 {
      VersionsStayPositive(docs, ops, n - 1);
      assert Apply(docs[n - 1], ops[n - 1]) == Ok(docs[n - 1 + 1]);
      ApplyKeepsVersionsPositive(docs[n - 1], ops[n - 1]);
    }
  }

  /** A session issued before a step that revokes is not valid against any later document, as long as the
      account is not deleted and created again. A stored version below 1 needs a second such step. */
  lemma {:induction false} RevokedFromVersionTwo(docs: seq<Document>, ops: seq<Op>, i: nat, k: nat, n: nat, s: Session)
    requires History(docs, ops) && i <= k < n < |docs|
    requires IssuedBy(docs[i], s) && EndsSessions(docs[k], ops[k], s.username)
    requires forall m :: i <= m < n ==> ops[m] != Delete(s.username)
    requires VersionOf(docs[k + 1], s.username) >= 2
    ensures !SessionValid(docs[n], s)
  {
    VersionNeverFalls(docs, ops, i, k, s.username);
    assert Apply(docs[k], ops[k]) == Ok(docs[k + 1]);
    VersionStep(docs[k], ops[k], s.username);
    VersionNeverFalls(docs, ops, k + 1, n, s.username);
  }

  /** In a store whose accounts were all created or seeded, every revoking step ends every session issued
      before it. */
  lemma {:induction false} OldSessionsStayRevoked(docs: seq<Document>, ops: seq<Op>, i: nat, k: nat, n: nat, s: Session)
    requires History(docs, ops) && i <= k < n < |docs| && VersionsPositive(docs[0].users)
    requires IssuedBy(docs[i], s) && EndsSessions(docs[k], ops[k], s.username)
    requires forall m :: i <= m < n ==> ops[m] != Delete(s.username)
    ensures !SessionValid(docs[n], s)
  {
    VersionsStayPositive(docs, ops, k);
    VersionNeverFalls(docs, ops, i, k, s.username);
    assert Apply(docs[k], ops[k]) == Ok(docs[k + 1]);
    VersionStep(docs[k], ops[k], s.username);
    RevokedFromVersionTwo(docs, ops, i, k, n, s);
  }

  /** How much a revoking operation adds to the version: an administrator's new password counts twice. */
  function Rise(op: Op): nat { if op.UpdateAdmin? && op.password != "" then 2 else 1 }

  /** The account loses the role it had, or is disabled. */
  predicate TakesAccess(op: Op, role: Role) {
    op.UpdateAdmin? && ((op.newRole.Some? && op.newRole.value != role) || op.newDisabled == Some(true))
  }

  /** What a revoking operation makes of the account. */
  lemma {:induction false} RevokedAccount(stored: Document, op: Op, s: Session) returns (i: nat, u: User)
    requires Revokes(op, s.username) && Apply(stored, op).Ok? && SessionValid(stored, s)
    ensures Find(stored.users, s.username) == Some(i) && Apply(stored, op).value.users == stored.users[i := u]
    ensures u.username == s.username && u.sessionVersion == stored.users[i].sessionVersion + Rise(op)
    ensures u.disabled || u.role != s.role <==> TakesAccess(op, s.role)
  {
    i := Find(stored.users, op.username).value;
    u := Apply(stored, op).value.users[i];
    if op.UpdateAdmin? {
      ResetRises(NormalizedPolicy(stored.policy), Edited(stored.users[i], op), op);
      var j, v := UpdateAdminShape(stored.(policy := NormalizedPolicy(stored.policy)), op);
    }
  }

  lemma ResetRises(policy: SecurityPolicy, u: User, op: Op)
    requires op.UpdateAdmin? && Reset(policy, u, op).Ok?
    ensures Reset(policy, u, op).value.sessionVersion == u.sessionVersion + Rise(op)
    ensures Reset(policy, u, op).value.role == u.role && Reset(policy, u, op).value.disabled == u.disabled
  {}

  /** The positive version is needed: a stored version of 0 is applied as 1, so a revoking operation ends a
      valid session exactly when it takes the version to 2 or takes the role or the account away. */
  lemma FirstChangeRevokesExactly(stored: Document, op: Op, s: Session)
    requires Revokes(op, s.username) && Apply(stored, op).Ok? && SessionValid(stored, s)
    ensures !SessionValid(Apply(stored, op).value, s) <==>
      VersionOf(stored, s.username) + Rise(op) >= 2 || TakesAccess(op, s.role)
  {
    var i, u := RevokedAccount(stored, op, s);
    FindPut(stored.users, i, u, s.username);
  }

  /** A change of the policy ends a valid session exactly when the account now needs a factor, has none, and
      its stored version was positive. */
  lemma {:induction false} PolicyRevokesExactly(stored: Document, policy: SecurityPolicy, s: Session)
    requires SessionValid(stored, s)
    ensures !SessionValid(Apply(stored, SetPolicy(policy)).value, s) <==>
      NeedsFactor(stored, policy, s.username) && VersionOf(stored, s.username) >= 1
  {
    FindPolicy(stored.(policy := NormalizedPolicy(stored.policy)), policy, s.username);
  }

  lemma {:induction false} DeletedIsGone(stored: Document, name: string)
    requires UsersOK(stored.users) && Apply(stored, Delete(name)).Ok?
    ensures Find(Apply(stored, Delete(name)).value.users, name) == None
  {
    var i := Find(stored.users, name).value;
    NameIsGone(stored.users, i);
    FindUnique(Without(stored.users, i), None, name);
  }

  lemma NameIsGone(users: seq<User>, i: nat)
    requires NamesOK(users) && i < |users|
    ensures forall j :: 0 <= j < |Without(users, i)| ==> Without(users, i)[j].username != users[i].username
  {
    assert forall j :: 0 <= j < |Without(users, i)| ==> Without(users, i)[j] == users[if j < i then j else j + 1];
  }

  lemma {:induction false} CreatedIsFound(stored: Document, op: Op)
    requires op.Create? && Apply(stored, op).Ok?
    ensures var users := Apply(stored, op).value.users;
      && Find(users, Trim(op.username)) == Some(|stored.users|)
      && users[|stored.users|].sessionVersion == 1 && users[|stored.users|].role == op.role && !users[|stored.users|].disabled
  {
    FindUnique(Apply(stored, op).value.users, Some(|stored.users|), Trim(op.username));
  }

  /** Deleting a name and creating it again restarts its version: a session of the deleted account is
      valid for the new one exactly when it was the first version and the role is the same. */
  lemma {:induction false} RecreatedAccountAcceptsOldSessionExactly(stored: Document, op: Op, s: Session)
    requires UsersOK(stored.users) && Apply(stored, Delete(s.username)).Ok?
    requires op.Create? && Trim(op.username) == s.username && Apply(Apply(stored, Delete(s.username)).value, op).Ok?
    ensures !SessionValid(Apply(stored, Delete(s.username)).value, s)
    ensures SessionValid(Apply(Apply(stored, Delete(s.username)).value, op).value, s) <==>
      s.version == 1 && s.role == op.role
  {
    DeletedIsGone(stored, s.username);
    CreatedIsFound(Apply(stored, Delete(s.username)).value, op);
  }
}
