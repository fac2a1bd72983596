/** When each mutation of the identity document succeeds and what it does to the account
    (apps/api/internal/auth/users.go). */
module IdentityEffects {
  import opened Common
  import opened ProviderNames
  import opened IdentityDocument
  import opened IdentityInvariants
  import opened IdentityHistories

  /** The account with that name is the only one. */
  lemma {:induction false} AccountExactly(d: Document, name: string, u: User)
    requires NamesOK(d.users)
    ensures Account(d, name) == Some(u) <==> u in d.users && u.username == name
  {
    if u in d.users && u.username == name {
      var i :| 0 <= i < |d.users| && d.users[i] == u;
      FindUnique(d.users, Some(i), name);
    }
  }

  // ---------- the policy ----------

  /** What an administrator's policy is brought to: a maximum from 64 to 256, a history up to 24, and a
      minimum that is not above the maximum and, unless everybody needs a second factor, not below 15. A
      policy that already is like that stays as it is. */
  lemma NormalizedPolicyExactly(p: SecurityPolicy)
    ensures var n := NormalizedPolicy(p);
      && 64 <= n.maximum <= 256 && 0 <= n.history <= 24
      && n.minimum <= n.maximum && n.minimum >= (if p.mode == MFARequiredAll then 8 else 15)
      && n.mode == p.mode && n.blockCommon == p.blockCommon
    ensures NormalizedPolicy(p) == p <==>
      && 64 <= p.maximum <= 256 && 0 <= p.history <= 24
      && (if p.mode == MFARequiredAll then 8 else 15) <= p.minimum <= p.maximum
    ensures NormalizedPolicy(NormalizedPolicy(p)) == NormalizedPolicy(p)
  {}

  /** A part is found wherever it stands. */
  lemma {:induction false} PartIsContained(a: string, part: string, b: string)
    ensures Contains(a + part + b, part)
  {
    if a == "" {
      assert a + part + b == part + b;
    } else {
      assert (a + part + b)[1..] == a[1..] + part + b;
      PartIsContained(a[1..], part, b);
    }
  }

  lemma {:induction false} ContainsExactly(s: string, part: string)
    ensures Contains(s, part) <==> exists a, b :: s == a + part + b
  {
    if part <= s {
      assert s == "" + part + s[|part|..];
    } else if s != "" && Contains(s[1..], part) {
      ContainsExactly(s[1..], part);
      var a, b :| s[1..] == a + part + b;
      assert s == ([s[0]] + a) + part + b;
    }
    if a, b :| s == a + part + b { PartIsContained(a, part, b); }
  }

  lemma {:induction false} BeforeAtExactly(email: string)
    ensures '@' !in BeforeAt(email) && BeforeAt(email) <= email
    ensures |BeforeAt(email)| < |email| ==> email[|BeforeAt(email)|] == '@'
  {
    if email != "" && email[0] != '@' { BeforeAtExactly(email[1..]); }
  }

  /** The name is part of the text, and long enough to matter. */
  ghost predicate Reveals(text: string, name: string) {
    |name| >= 4 && exists a, b :: text == a + name + b
  }

  /** A password is accepted exactly when its length is within the policy's bounds, it has no NUL, and, if the
      policy blocks common ones, it is none of those and reveals neither the user name nor what stands before
      the '@' of the e-mail address. */
  lemma PasswordAcceptedExactly(policy: SecurityPolicy, password: string, username: string, email: string)
    ensures var n, text := NormalizedPolicy(policy), Trim(Lower(password));
      PasswordAccepted(policy, password, username, email) <==>
        && n.minimum <= |password| <= n.maximum && '\0' !in password
        && (policy.blockCommon ==> text !in COMMON && !Reveals(text, Lower(username)) && !Reveals(text, BeforeAt(Lower(email))))
  {
    var text := Trim(Lower(password));
    ContainsExactly(text, Lower(username));
    ContainsExactly(text, BeforeAt(Lower(email)));
  }

  // ---------- what an account's owner does ----------

  /** Whoever gives the account's current password may act for it. */
  predicate Authenticated(stored: Document, name: string, password: string) {
    var account := Account(stored, name);
    account.Some? && !account.value.disabled && account.value.password.Hash? && account.value.password.plain == password
  }

  /** The password is neither the account's present one nor a remembered one. */
  predicate Unused(u: User, password: string) {
    && !(u.password.Hash? && u.password.plain == password)
    && forall i :: 0 <= i < |u.history| && u.history[i].Hash? ==> u.history[i].plain != password
  }

  lemma UnusedExactly(u: User, password: string)
    ensures Unused(u, password) <==> !exists i :: 0 <= i < |Recent(u)| && Matches(Recent(u)[i], password)
  {
    if !Unused(u, password) {
      if Matches(u.password, password) {
        assert Recent(u)[0] == u.password;
      } else {
        var i :| 0 <= i < |u.history| && u.history[i].Hash? && u.history[i].plain == password;
        assert Recent(u)[i + 1] == u.history[i];
      }
    }
    if i :| 0 <= i < |Recent(u)| && Matches(Recent(u)[i], password) && i > 0 {
      assert Recent(u)[i] == u.history[i - 1];
    }
  }

  /** The account with the new password, the old ones remembered as far as the policy says. */
  predicate GivenPassword(before: User, after: User, password: string, salt: nat, limit: nat, rise: nat) {
    && after.password == Hash(password, false, salt)
    && |after.history| == (if |before.history| + 1 <= limit then |before.history| + 1 else limit)
    && (after.history != [] ==> after.history[0] == before.password && after.history[1..] <= before.history)
    && after == before.(password := after.password, history := after.history, sessionVersion := before.sessionVersion + rise)
  }

  lemma ReplaceExactly(policy: SecurityPolicy, u: User, password: string, salt: nat)
    ensures var r := ReplacePassword(policy, u, password, salt);
      && (r.Ok? <==> PasswordAccepted(policy, password, u.username, u.email) && Unused(u, password))
      && (r == Err(WeakPassword) <==> !PasswordAccepted(policy, password, u.username, u.email))
      && (r.Err? ==> r.error in {WeakPassword, ReusedPassword})
      && (r.Ok? ==> GivenPassword(u, r.value, password, salt, NormalizedPolicy(policy).history, 1))
  {
    UnusedExactly(u, password);
  }

  lemma {:induction false} OwnAccountExactly(d: Document, name: string, current: string)
    ensures OwnAccount(d, name, current).Ok? <==> Authenticated(d, name, current)
    ensures OwnAccount(d, name, current).Ok? ==>
      Find(d.users, name) == Some(OwnAccount(d, name, current).value)
    ensures OwnAccount(d, name, current).Err? ==> OwnAccount(d, name, current) == Err(InvalidCredentials)
  {}

  /** A change of the account found, and of no other. */
  lemma {:induction false} PutIsAccount(d: Document, i: nat, u: User, name: string)
    requires Find(d.users, name) == Some(i) && u.username == name
    ensures Account(Put(d, i, u), name) == Some(u)
  {
    PutAccount(d.users, i, u, d.policy, name);
  }

  /** A password is changed exactly with the current one, to an acceptable one that is not remembered. */
  lemma {:induction false} ChangePasswordExactly(stored: Document, name: string, current: string, password: string, salt: nat)
    ensures var r, before := Apply(stored, ChangePassword(name, current, password, salt)), Account(stored, name);
      && (r == Err(InvalidCredentials) <==> !Authenticated(stored, name, current))
      && (r.Ok? <==>
            && Authenticated(stored, name, current) && Unused(before.value, password)
            && PasswordAccepted(stored.policy, password, name, before.value.email))
      && (r.Ok? ==>
            && Account(r.value, name).Some?
            && GivenPassword(before.value, Account(r.value, name).value, password, salt, NormalizedPolicy(stored.policy).history, 1))
  {
    var d := stored.(policy := NormalizedPolicy(stored.policy));
    NormalizedPolicyExactly(stored.policy);
    OwnAccountExactly(d, name, current);
    var own := OwnAccount(d, name, current);
    if own.Ok? {
      var u := d.users[own.value];
      ReplaceExactly(d.policy, u, password, salt);
      var r := ReplacePassword(d.policy, u, password, salt);
      if r.Ok? { PutIsAccount(d, own.value, r.value, name); }
    }
  }

  /** An e-mail address is changed exactly with the current password, to none or to a well-formed one that no
      other account has. */
  lemma {:induction false} ChangeEmailExactly(stored: Document, name: string, current: string, given: string)
    ensures var r, before, email := Apply(stored, ChangeEmail(name, current, given)), Account(stored, name), NormalizeEmail(given);
      && (r == Err(EmailInvalid) <==> email != "" && !EmailShape(email))
      && (r == Err(InvalidCredentials) <==> (email == "" || EmailShape(email)) && !Authenticated(stored, name, current))
      && (r.Ok? <==>
            && Authenticated(stored, name, current)
            && (email == "" || (EmailShape(email) && !EmailInUse(stored.users, email, name))))
      && (r.Ok? ==>
            Account(r.value, name) == Some(before.value.(email := email, sessionVersion := before.value.sessionVersion + 1)))
  {
    var d := stored.(policy := NormalizedPolicy(stored.policy));
    OwnAccountExactly(d, name, current);
    var own, r := OwnAccount(d, name, current), Apply(stored, ChangeEmail(name, current, given));
    if r.Ok? { PutIsAccount(d, own.value, r.value.users[own.value], name); }
  }

  /** Enrollment begins exactly with the current password, unless the policy has no second factor; until it
      is confirmed nothing but the pending secret and the recovery codes changes. */
  lemma {:induction false} BeginMfaExactly(stored: Document, name: string, current: string, secret: string, hashes: seq<string>)
    ensures var r, before := Apply(stored, BeginMfa(name, current, secret, hashes)), Account(stored, name);
      && (r == Err(MfaUnavailable) <==> stored.policy.mode == MFADisabled)
      && (r == Err(InvalidCredentials) <==> stored.policy.mode != MFADisabled && !Authenticated(stored, name, current))
      && (r.Ok? <==> stored.policy.mode != MFADisabled && Authenticated(stored, name, current))
      && (r.Ok? ==> Account(r.value, name) == Some(before.value.(pendingTotp := secret, codes := hashes)))
  {
    var d := stored.(policy := NormalizedPolicy(stored.policy));
    OwnAccountExactly(d, name, current);
    var own, r := OwnAccount(d, name, current), Apply(stored, BeginMfa(name, current, secret, hashes));
    if r.Ok? { PutIsAccount(d, own.value, r.value.users[own.value], name); }
  }

  /** It is confirmed exactly with a valid code for a pending secret, which becomes the account's. */
  lemma {:induction false} ConfirmMfaExactly(stored: Document, name: string, codeValid: bool)
    ensures var r, before := Apply(stored, ConfirmMfa(name, codeValid)), Account(stored, name);
      && (r == Err(NoPending) <==> before == None || before.value.pendingTotp == "")
      && (r.Ok? <==> before.Some? && before.value.pendingTotp != "" && codeValid)
      && (r.Ok? ==>
            Account(r.value, name) == Some(before.value.(totp := before.value.pendingTotp, pendingTotp := "", mfa := true,
              sessionVersion := before.value.sessionVersion + 1)))
  {
    var d := stored.(policy := NormalizedPolicy(stored.policy));
    var r, i := Apply(stored, ConfirmMfa(name, codeValid)), Find(stored.users, name);
    if r.Ok? { PutIsAccount(d, i.value, r.value.users[i.value], name); }
  }

  /** Whether somebody with this role must have a second factor. */
  predicate Demanded(mode: MFAMode, role: Role) {
    match mode
    case MFADisabled | MFAOptional => false
    case MFARequiredAdmins => role == Admin
    case MFARequiredAll => true
  }

  /** The second factor goes exactly with the current password and a valid code, where the policy does not
      require one, and takes its secrets and recovery codes along. */
  lemma {:induction false} DisableMfaExactly(stored: Document, name: string, current: string, codeValid: bool)
    ensures var r, before := Apply(stored, DisableMfa(name, current, codeValid)), Account(stored, name);
      && (r == Err(MfaNotEnabled) <==> before == None || !before.value.mfa)
      && (r == Err(MfaRequired) <==> before.Some? && before.value.mfa && Demanded(stored.policy.mode, before.value.role))
      && (r == Err(InvalidCredentials) <==>
            && before.Some? && before.value.mfa && !Demanded(stored.policy.mode, before.value.role)
            && !(before.value.password.Hash? && before.value.password.plain == current))
      && (r.Ok? <==>
            && before.Some? && before.value.mfa && !Demanded(stored.policy.mode, before.value.role)
            && before.value.password.Hash? && before.value.password.plain == current && codeValid)
      && (r.Ok? ==>
            Account(r.value, name) == Some(before.value.(mfa := false, totp := "", pendingTotp := "", codes := [],
              sessionVersion := before.value.sessionVersion + 1)))
  {
    var d := stored.(policy := NormalizedPolicy(stored.policy));
    var r, i := Apply(stored, DisableMfa(name, current, codeValid)), Find(stored.users, name);
    if r.Ok? { PutIsAccount(d, i.value, r.value.users[i.value], name); }
  }

  /** A recovery code is accepted exactly from an enabled account with a second factor that holds it, and
      one copy of it goes. */
  lemma {:induction false} RecoveryCodeExactly(stored: Document, name: string, hash: string)
    ensures var r, before := Apply(stored, UseRecoveryCode(name, hash)), Account(stored, name);
      && (r.Ok? <==> before.Some? && !before.value.disabled && before.value.mfa && hash in before.value.codes)
      && (r.Err? ==> r.error == InvalidCredentials)
      && (r.Ok? ==>
            && Account(r.value, name).Some?
            && var after := Account(r.value, name).value;
               multiset(after.codes) == multiset(before.value.codes) - multiset{hash} && after == before.value.(codes := after.codes))
  {
    var d := stored.(policy := NormalizedPolicy(stored.policy));
    var r, i := Apply(stored, UseRecoveryCode(name, hash)), Find(stored.users, name);
    if r.Ok? {
      var codes := d.users[i.value].codes;
      var at := FirstIndex(codes, hash).value;
      assert codes == codes[..at] + [hash] + codes[at + 1..];
      PutIsAccount(d, i.value, r.value.users[i.value], name);
    }
  }

  // ---------- what administrators and the server do ----------

  /** An account is created exactly with a usable free name, a well-formed free e-mail address or none, and an
      acceptable password; it has what was asked for, is enabled and has no second factor. */
  lemma {:induction false} CreateExactly(stored: Document, username: string, given: string, password: string, role: Role, salt: nat)
    ensures var r, name, email := Apply(stored, Create(username, given, password, role, salt)), Trim(username), NormalizeEmail(given);
      && (r.Ok? <==>
            && name != "" && password != "" && |name| <= 128
            && (forall c :: c in name ==> c !in {'\r', '\n', '\t', '/', '\\'})
            && Account(stored, name) == None
            && (email == "" || (EmailShape(email) && !EmailInUse(stored.users, email, "")))
            && PasswordAccepted(stored.policy, password, name, email))
      && (r.Ok? ==>
            Account(r.value, name) == Some(User(name, Hash(password, false, salt), [], email, role, false, false, "", "", [], 1)))
  {
    NormalizedPolicyExactly(stored.policy);
    var r, name := Apply(stored, Create(username, given, password, role, salt)), Trim(username);
    if r.Ok? { FindUnique(r.value.users, Some(|stored.users|), name); }
  }

  /** What an administrator's update makes of the account: the fields that were given, no second factor if it
      is to be reset, and a new password if there is one. */
  predicate Updated(before: User, after: User, op: Op, limit: nat)
    requires op.UpdateAdmin?
  {
    && after.username == before.username
    && after.email == (if op.newEmail.Some? then NormalizeEmail(op.newEmail.value) else before.email)
    && after.role == (if op.newRole.Some? then op.newRole.value else before.role)
    && after.disabled == (if op.newDisabled.Some? then op.newDisabled.value else before.disabled)
    && (if op.resetMfa then !after.mfa && after.totp == after.pendingTotp == "" && after.codes == []
        else after.mfa == before.mfa && after.totp == before.totp && after.pendingTotp == before.pendingTotp && after.codes == before.codes)
    && after.sessionVersion == before.sessionVersion + Rise(op)
    && (if op.password == "" then after.password == before.password && after.history == before.history
        else
          && after.password == Hash(op.password, false, op.salt)
          && |after.history| == (if |before.history| + 1 <= limit then |before.history| + 1 else limit)
          && (after.history != [] ==> after.history[0] == before.password && after.history[1..] <= before.history))
  }

  /** The password given, if any, is one the account may have. */
  predicate MayHave(policy: SecurityPolicy, u: User, password: string, email: string) {
    password == "" || (Unused(u, password) && PasswordAccepted(policy, password, u.username, email))
  }

  lemma ResetUpdates(policy: SecurityPolicy, before: User, op: Op)
    requires op.UpdateAdmin?
    ensures var r := Reset(policy, Edited(before, op), op);
      && (r.Ok? <==> MayHave(policy, before, op.password, Edited(before, op).email))
      && (r.Ok? ==> Updated(before, r.value, op, NormalizedPolicy(policy).history))
  {
    if op.password == "" { ResetKeepsPassword(policy, before, op); } else { ResetWithPassword(policy, before, op); }
  }

  lemma ResetWithPassword(policy: SecurityPolicy, before: User, op: Op)
    requires op.UpdateAdmin? && op.password != ""
    ensures var r := Reset(policy, Edited(before, op), op);
      && (r.Ok? <==> Unused(before, op.password) && PasswordAccepted(policy, op.password, before.username, Edited(before, op).email))
      && (r.Ok? ==> Updated(before, r.value, op, NormalizedPolicy(policy).history))
  {
    var u := Edited(before, op);
    ReplaceExactly(policy, u, op.password, op.salt);
    var r := ReplacePassword(policy, u, op.password, op.salt);
    if r.Ok? { ResetGivesPassword(policy, before, op, r.value); }
  }

  lemma ResetKeepsPassword(policy: SecurityPolicy, before: User, op: Op)
    requires op.UpdateAdmin? && op.password == ""
    ensures var r := Reset(policy, Edited(before, op), op); r.Ok? && Updated(before, r.value, op, NormalizedPolicy(policy).history)
  {}

  lemma ResetGivesPassword(policy: SecurityPolicy, before: User, op: Op, given: User)
    requires op.UpdateAdmin? && op.password != ""
    requires ReplacePassword(policy, Edited(before, op), op.password, op.salt) == Ok(given)
    requires GivenPassword(Edited(before, op), given, op.password, op.salt, NormalizedPolicy(policy).history, 1)
    ensures var r := Reset(policy, Edited(before, op), op); r.Ok? && Updated(before, r.value, op, NormalizedPolicy(policy).history)
  {}

  /** A new e-mail address, if one is given, is refused exactly when it is malformed or another account has it. */
  lemma EmailProblemExactly(users: seq<User>, op: Op)
    requires op.UpdateAdmin?
    ensures EmailProblem(users, op) == None <==>
      op.newEmail == None || Trim(op.newEmail.value) == "" || EmailMayBe(users, Lower(Trim(op.newEmail.value)), op.username)
    ensures EmailProblem(users, op) in {None, Some(EmailInvalid), Some(EmailTaken)}
  {}

  predicate EmailMayBe(users: seq<User>, email: string, name: string) {
    && '@' in email && '\r' !in email && '\n' !in email && |email| <= 254
    && forall u :: u in users && u.username != name ==> Lower(u.email) != Lower(email)
  }

  lemma UpdateAdminCases(d: Document, op: Op, i: nat)
    requires op.UpdateAdmin? && Find(d.users, op.username) == Some(i)
    ensures var r, reset := ApplyUpdateAdmin(d, op), Reset(d.policy, Edited(d.users[i], op), op);
      && r != Err(NotFound)
      && (r.Ok? <==> EmailProblem(d.users, op) == None && r != Err(LastAdmin) && reset.Ok?)
      && (r.Ok? ==> r.value == Put(d, i, reset.value))
  {
    var password := if op.password != "" then ReplacePassword(d.policy, Edited(d.users[i], op), op.password, op.salt) else Ok(d.users[i]);
    assert password.Err? ==> password.error in {WeakPassword, ReusedPassword};
  }

  /** It succeeds exactly for an account with that name, an e-mail address that is allowed, a password that
      is, and when it does not leave fewer than two other active administrators behind. */
  lemma {:induction false} UpdateAdminExactly(stored: Document, op: Op)
    requires op.UpdateAdmin?
    ensures var r, before := Apply(stored, op), Account(stored, op.username);
      && (r == Err(NotFound) <==> before == None)
      && (r.Ok? <==>
            && before.Some? && EmailProblem(stored.users, op) == None && r != Err(LastAdmin)
            && MayHave(stored.policy, before.value, op.password, Edited(before.value, op).email))
      && (r.Ok? ==>
            && Account(r.value, op.username).Some?
            && Updated(before.value, Account(r.value, op.username).value, op, NormalizedPolicy(stored.policy).history))
  {
    var d := stored.(policy := NormalizedPolicy(stored.policy));
    NormalizedPolicyExactly(stored.policy);
    var r, i := Apply(stored, op), Find(stored.users, op.username);
    if i.Some? {
      UpdateAdminCases(d, op, i.value);
      ResetUpdates(d.policy, d.users[i.value], op);
      if r.Ok? { PutIsAccount(d, i.value, Reset(d.policy, Edited(d.users[i.value], op), op).value, op.username); }
    }
  }

  /** A deletion succeeds exactly for an account that is not the last active administrator, and the account
      is gone. */
  lemma {:induction false} DeleteExactly(stored: Document, name: string)
    requires UsersOK(stored.users)
    ensures var r, before := Apply(stored, Delete(name)), Account(stored, name);
      && (r == Err(NotFound) <==> before == None)
      && (r.Ok? <==> before.Some? && !(Active(before.value) && ActiveAdmins(stored.users) <= 1))
      && (r.Ok? ==> Account(r.value, name) == None)
  {
    if Apply(stored, Delete(name)).Ok? { DeletedIsGone(stored, name); }
  }

  /** A stored hash is replaced by another one of the same password, and only while it is the expected one. */
  lemma {:induction false} RehashExactly(stored: Document, name: string, expected: Stored, salt: nat)
    ensures var r, before := Apply(stored, Rehash(name, expected, salt)), Account(stored, name);
      && r.Ok?
      && (before == None ==> r.value.users == stored.users)
      && (before.Some? ==>
            Account(r.value, name) == Some(
              if before.value.password == expected && expected.Hash?
              then before.value.(password := Hash(expected.plain, false, salt)) else before.value))
  {
    var d := stored.(policy := NormalizedPolicy(stored.policy));
    var i := Find(stored.users, name);
    if i.Some? && d.users[i.value].password == expected && expected.Hash? {
      PutIsAccount(d, i.value, d.users[i.value].(password := Hash(expected.plain, false, salt)), name);
    }
  }

  /** A new policy is stored in its normal form and changes no account but for ending sessions. */
  lemma {:induction false} SetPolicyExactly(stored: Document, policy: SecurityPolicy, name: string)
    ensures var r, before := Apply(stored, SetPolicy(policy)), Account(stored, name);
      && r.Ok? && r.value.policy == NormalizedPolicy(policy)
      && Account(r.value, name) ==
         if NeedsFactor(stored, policy, name)
         then Some(before.value.(sessionVersion := before.value.sessionVersion + 1)) else before
  {
    FindPolicy(stored.(policy := NormalizedPolicy(stored.policy)), policy, name);
  }
}
