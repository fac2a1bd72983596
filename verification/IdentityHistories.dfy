/** What a run of mutations does to one account: frames, the password history window, and how often a
    recovery code can be consumed (apps/api/internal/auth/users.go). */
module IdentityHistories {
  import opened Common
  import opened ProviderNames
  import opened IdentityDocument
  import opened IdentityInvariants

  function Account(d: Document, name: string): Option<User> {
    var found := Find(d.users, name);
    if found.Some? then Some(d.users[found.value]) else None
  }

  /** The name of the account a mutation is about; a policy change is about all of them. */
  predicate Concerns(op: Op, name: string) {
    op.SetPolicy? || (if op.Create? then Trim(op.username) == name else op.username == name)
  }

  // ---------- frames ----------

  lemma {:induction false} PutAccount(users: seq<User>, i: nat, u: User, policy: SecurityPolicy, name: string)
    requires i < |users| && Find(users, users[i].username) == Some(i) && u.username == users[i].username
    ensures Account(Document(policy, users[i := u]), name) ==
      if name == u.username then Some(u) else Account(Document(policy, users), name)
  {
    FindPut(users, i, u, name);
  }

  /** The mutations that replace one account in place, and the account they store. */
  predicate InPlace(op: Op) {
    op.UpdateAdmin? || op.ChangePassword? || op.ChangeEmail? || op.BeginMfa? || op.ConfirmMfa? || op.DisableMfa?
      || op.UseRecoveryCode?
  }

  lemma {:induction false} InPlaceFrame(stored: Document, op: Op, name: string) returns (i: nat, u: User)
    requires Apply(stored, op).Ok? && InPlace(op)
    ensures Find(stored.users, op.username) == Some(i)
    ensures Apply(stored, op).value == Document(NormalizedPolicy(stored.policy), stored.users[i := u])
    ensures u.username == op.username
    ensures op.UpdateAdmin? || op.ChangePassword? || SamePasswords(stored.users[i], u)
    ensures Account(Apply(stored, op).value, name) == if name == op.username then Some(u) else Account(stored, name)
  {
    i := Find(stored.users, op.username).value;
    if op.UpdateAdmin? {
      i, u := UpdateAdminShape(stored.(policy := NormalizedPolicy(stored.policy)), op);
    } else {
      u := OwnShape(stored, op, i);
    }
    PutAccount(stored.users, i, u, NormalizedPolicy(stored.policy), name);
  }

  lemma {:induction false} OwnShape(stored: Document, op: Op, i: nat) returns (u: User)
    requires Apply(stored, op).Ok? && InPlace(op) && !op.UpdateAdmin?
    requires Find(stored.users, op.username) == Some(i)
    ensures Apply(stored, op).value == Document(NormalizedPolicy(stored.policy), stored.users[i := u])
    ensures u.username == op.username
    ensures op.ChangePassword? || SamePasswords(stored.users[i], u)
  {
    u := Apply(stored, op).value.users[i];
  }

  lemma {:induction false} StillMissing(users: seq<User>, i: nat, name: string)
    requires i < |users| && Find(users, name) == None
    ensures Find(Without(users, i), name) == None
  {
    var after := Without(users, i);
    assert forall j :: 0 <= j < |after| ==> after[j] == users[if j < i then j else j + 1];
    FindUnique(after, None, name);
  }

  /** A mutation of one account leaves every other account exactly as it was. */
  lemma {:induction false} OthersUntouched(stored: Document, op: Op, name: string)
    requires Apply(stored, op).Ok? && !Concerns(op, name)
    ensures Account(Apply(stored, op).value, name) == Account(stored, name)
  {
    var after := Apply(stored, op).value;
    if InPlace(op) {
      var i, u := InPlaceFrame(stored, op, name);
    } else {
      match op
      case Create(_, _, _, _, _) => FindUnique(after.users, Find(stored.users, name), name);
      case Delete(other) =>
        var i := Find(stored.users, other).value;
        if Find(stored.users, name).Some? { VersionDelete(stored.users, i, name); } else { StillMissing(stored.users, i, name); }
      case RecordAuthentication(_) =>
      case Rehash(other, _, _) =>
        if after.users != stored.users {
          var i := Find(stored.users, other).value;
          PutAccount(stored.users, i, after.users[i], after.policy, name);
        }
    }
  }

  // ---------- the password history ----------

  function NewPassword(op: Op, name: string): Option<string> {
    if (op.ChangePassword? || (op.UpdateAdmin? && op.password != "")) && op.username == name then Some(op.password) else None
  }

  /** `u` has just been given a password that none of its last ones was. */
  predicate Replaced(before: User, u: User, password: string, limit: nat) {
    && u.password.Hash? && u.password.plain == password
    && u.history == Recent(before)[..Least(limit, |Recent(before)|)]
    && forall i :: 0 <= i < |Recent(before)| ==> !Matches(Recent(before)[i], password)
  }

  function Least(a: nat, b: nat): nat { if a < b then a else b }

  lemma {:induction false} ReplacePasswordReplaces(policy: SecurityPolicy, u: User, password: string, salt: nat)
    requires ReplacePassword(policy, u, password, salt).Ok?
    ensures Replaced(u, ReplacePassword(policy, u, password, salt).value, password, NormalizedPolicy(policy).history)
  {
    assert Recent(u)[..|Recent(u)|] == Recent(u);
  }

  predicate SamePasswords(a: User, b: User) {
    a.history == b.history && (a.password.Hash? ==> b.password.Hash? && a.password.plain == b.password.plain)
  }

  lemma {:induction false} NormalizedTwice(p: SecurityPolicy)
    ensures NormalizedPolicy(NormalizedPolicy(p)) == NormalizedPolicy(p)
  {}

  lemma {:induction false} PasswordReset(policy: SecurityPolicy, before: User, op: Op)
    requires op.UpdateAdmin? && Reset(policy, Edited(before, op), op).Ok?
    ensures var after := Reset(policy, Edited(before, op), op).value;
      if op.password != "" then Replaced(before, after, op.password, NormalizedPolicy(policy).history)
      else SamePasswords(before, after)
  {
    var edited := Edited(before, op);
    assert Recent(edited) == Recent(before);
    if op.password != "" {
      ReplacePasswordReplaces(policy, edited, op.password, op.salt);
    }
  }

  lemma {:induction false} PasswordInPlace(stored: Document, op: Op)
    requires Apply(stored, op).Ok? && InPlace(op)
    ensures Account(stored, op.username).Some? && Account(Apply(stored, op).value, op.username).Some?
    ensures var before, after := Account(stored, op.username).value, Account(Apply(stored, op).value, op.username).value;
      if NewPassword(op, op.username).Some?
      then Replaced(before, after, op.password, NormalizedPolicy(stored.policy).history)
      else SamePasswords(before, after)
  {
    var i, u := InPlaceFrame(stored, op, op.username);
    if op.UpdateAdmin? {
      PasswordByAdmin(stored, op, i, u);
    } else if op.ChangePassword? {
      PasswordByOwner(stored, op, i, u);
    }
  }

  lemma {:induction false} PasswordByAdmin(stored: Document, op: Op, i: nat, u: User)
    requires op.UpdateAdmin? && Find(stored.users, op.username) == Some(i)
    requires Apply(stored, op) == Ok(Document(NormalizedPolicy(stored.policy), stored.users[i := u]))
    ensures if op.password != "" then Replaced(stored.users[i], u, op.password, NormalizedPolicy(stored.policy).history)
      else SamePasswords(stored.users[i], u)
  {
    NormalizedTwice(stored.policy);
    var i', u' := UpdateAdminShape(stored.(policy := NormalizedPolicy(stored.policy)), op);
    assert stored.users[i := u][i] == stored.users[i := u'][i];
    PasswordReset(NormalizedPolicy(stored.policy), stored.users[i], op);
  }

  lemma {:induction false} PasswordByOwner(stored: Document, op: Op, i: nat, u: User)
    requires op.ChangePassword? && Find(stored.users, op.username) == Some(i)
    requires Apply(stored, op) == Ok(Document(NormalizedPolicy(stored.policy), stored.users[i := u]))
    ensures Replaced(stored.users[i], u, op.password, NormalizedPolicy(stored.policy).history)
  {
    NormalizedTwice(stored.policy);
    var u' := ReplacePassword(NormalizedPolicy(stored.policy), stored.users[i], op.password, op.salt).value;
    assert stored.users[i := u][i] == stored.users[i := u'][i];
    ReplacePasswordReplaces(NormalizedPolicy(stored.policy), stored.users[i], op.password, op.salt);
  }

  /** Every successful mutation either replaces the account's password by one it did not have lately,
      or leaves both the password and the history alone; storing a new hash of a legacy password is
      of the second kind. */
  lemma {:induction false} PasswordStep(stored: Document, op: Op, name: string)
    requires Apply(stored, op).Ok? && Account(stored, name).Some? && op != Delete(name)
    ensures Account(Apply(stored, op).value, name).Some?
    ensures var before, after := Account(stored, name).value, Account(Apply(stored, op).value, name).value;
      if NewPassword(op, name).Some?
      then Replaced(before, after, op.password, NormalizedPolicy(stored.policy).history)
      else SamePasswords(before, after)
  {
    if !Concerns(op, name) {
      OthersUntouched(stored, op, name);
    } else if InPlace(op) {
      PasswordInPlace(stored, op);
    } else if op.SetPolicy? {
      FindPolicy(stored.(policy := NormalizedPolicy(stored.policy)), op.policy, name);
    } else if op.Rehash? && Apply(stored, op).value.users != stored.users {
      var i, after := Find(stored.users, name).value, Apply(stored, op).value;
      PutAccount(stored.users, i, after.users[i], after.policy, name);
    }
  }

  /** The passwords an account has had, oldest first: those in `start`, then those given by ops[..n]. */
  function Trail(start: seq<string>, ops: seq<Op>, n: nat, name: string): seq<string>
    requires n <= |ops|
  {
    if n == 0 then start
    else
      var given := NewPassword(ops[n - 1], name);
      Trail(start, ops, n - 1, name) + if given.Some? then [given.value] else []
  }

  /** The account stores the newest password of the trail, and as history the ones before it, newest
      first, up to the limit. */
  predicate Records(trail: seq<string>, u: User, limit: nat) {
    && u.password.Hash? && trail != [] && u.password.plain == trail[|trail| - 1]
    && |u.history| == Least(limit, |trail| - 1)
    && forall i :: 0 <= i < |u.history| ==> u.history[i].Hash? && u.history[i].plain == trail[|trail| - 2 - i]
  }

  /** Any limit + 2 consecutive passwords are pairwise distinct. */
  predicate Window(trail: seq<string>, limit: nat) {
    forall i, j :: 0 <= i < j < |trail| && j - i <= limit + 1 ==> trail[i] != trail[j]
  }

  /** A fresh account has a one-password trail. */
  lemma {:induction false} FreshAccountRecorded(stored: Document, op: Op, limit: nat)
    requires op.Create? && Apply(stored, op).Ok?
    ensures Account(Apply(stored, op).value, Trim(op.username)).Some?
    ensures Records([op.password], Account(Apply(stored, op).value, Trim(op.username)).value, limit)
    ensures Window([op.password], limit)
  {
    FindUnique(Apply(stored, op).value.users, Some(|stored.users|), Trim(op.username));
  }

  lemma {:induction false} RecordsGrow(trail: seq<string>, before: User, after: User, password: string, limit: nat)
    requires Records(trail, before, limit) && Window(trail, limit) && Replaced(before, after, password, limit)
    ensures Records(trail + [password], after, limit) && Window(trail + [password], limit)
  {
    var grown := trail + [password];
    forall i | 0 <= i < |trail| && |trail| - i <= limit + 1
      ensures trail[i] != password
    {
      var at := |trail| - 1 - i;
      assert Recent(before)[at] == if at == 0 then before.password else before.history[at - 1];
      assert Matches(Recent(before)[at], trail[i]);
    }
    forall i | 0 <= i < |after.history|
      ensures after.history[i].Hash? && after.history[i].plain == grown[|grown| - 2 - i]
    {
      assert after.history[i] == if i == 0 then before.password else before.history[i - 1];
    }
  }

  /** Over any run of successful mutations under one history limit, the passwords of an account within
      any window of limit + 2 are pairwise distinct, and its stored history never exceeds the limit. */
  lemma {:induction false} PasswordsStayDistinct(docs: seq<Document>, ops: seq<Op>, start: seq<string>, n: nat, name: string, limit: nat)
    requires History(docs, ops) && n < |docs|
    requires forall k :: 0 <= k < n ==> ops[k] != Delete(name) && NormalizedPolicy(docs[k].policy).history == limit
    requires Account(docs[0], name).Some? && Records(start, Account(docs[0], name).value, limit) && Window(start, limit)
    ensures Account(docs[n], name).Some? && Records(Trail(start, ops, n, name), Account(docs[n], name).value, limit)
    ensures Window(Trail(start, ops, n, name), limit) && |Account(docs[n], name).value.history| <= limit
    decreases n
  {
    if n > 0 {
      PasswordsStayDistinct(docs, ops, start, n - 1, name, limit);
      PasswordTrailStep(docs[n - 1], ops[n - 1], docs[n], Trail(start, ops, n - 1, name), name, limit) by {
        assert Apply(docs[n - 1], ops[n - 1]) == Ok(docs[n - 1 + 1]);
      }
    }
  }

  lemma RecordsStay(trail: seq<string>, u: User, v: User, limit: nat)
    requires Records(trail, u, limit) && SamePasswords(u, v)
    ensures Records(trail, v, limit)
  {}

  lemma {:induction false} PasswordTrailStep(stored: Document, op: Op, after: Document, trail: seq<string>, name: string, limit: nat)
    requires Apply(stored, op) == Ok(after) && op != Delete(name) && NormalizedPolicy(stored.policy).history == limit
    requires Account(stored, name).Some? && Records(trail, Account(stored, name).value, limit) && Window(trail, limit)
    ensures Account(after, name).Some?
    ensures var given := NewPassword(op, name);
      var trail' := trail + if given.Some? then [given.value] else [];
      Records(trail', Account(after, name).value, limit) && Window(trail', limit)
  {
    PasswordStep(stored, op, name);
    if NewPassword(op, name).Some? {
      RecordsGrow(trail, Account(stored, name).value, Account(after, name).value, op.password, limit);
    } else {
      RecordsStay(trail, Account(stored, name).value, Account(after, name).value, limit);
      assert trail + [] == trail;
    }
  }

  /** A change to an otherwise acceptable password is refused as reuse exactly when it is one of the
      last limit + 1 passwords of the account. */
  lemma {:induction false} ReuseRefusedExactly(trail: seq<string>, policy: SecurityPolicy, u: User, password: string, salt: nat)
    requires Records(trail, u, NormalizedPolicy(policy).history)
    requires PasswordAccepted(policy, password, u.username, u.email)
    ensures ReplacePassword(policy, u, password, salt) == Err(ReusedPassword) <==>
      password in trail[|trail| - Least(NormalizedPolicy(policy).history + 1, |trail|)..]
  {
    var recent := trail[|trail| - Least(NormalizedPolicy(policy).history + 1, |trail|)..];
    assert |recent| == |Recent(u)|;
    forall i | 0 <= i < |recent|
      ensures Matches(Recent(u)[|recent| - 1 - i], password) <==> recent[i] == password
    {
      var at := |recent| - 1 - i;
      assert Recent(u)[at] == if at == 0 then u.password else u.history[at - 1];
    }
    if password in recent {
      var i :| 0 <= i < |recent| && recent[i] == password;
      assert Matches(Recent(u)[|recent| - 1 - i], password);
    }
    if i :| 0 <= i < |Recent(u)| && Matches(Recent(u)[i], password) {
      assert recent[|recent| - 1 - i] == password;
    }
  }
}
