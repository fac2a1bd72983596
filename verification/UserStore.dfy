/** The document a mutation edits in place, and a replica's copy of the users
    (apps/api/internal/auth/users.go). */
module UserStore {
  import opened Common
  import opened ProviderNames
  import opened IdentityDocument
  import opened IdentityInvariants
  import opened IdentityHistories

  /** A mutation either reports the error, and the draft is thrown away, or leaves the draft as the new
      document. */
  predicate Agrees(r: Result<Document, IdentityError>, err: Option<IdentityError>, d: Document) {
    match r
    case Ok(v) => err == None && d == v
    case Err(e) => err == Some(e)
  }

  lemma {:induction false} AdminsUpTo(users: seq<User>, i: nat)
    requires i < |users|
    ensures ActiveAdmins(users[..i + 1]) == ActiveAdmins(users[..i]) + Weight(users[i])
  {
    assert users[..i + 1][..i] == users[..i];
  }

  class Draft {
    var policy: SecurityPolicy
    var users: seq<User>

    function Doc(): Document
      reads this
    {
      Document(policy, users)
    }

    constructor (d: Document)
      ensures Doc() == d
    {
      policy, users := d.policy, d.users;
    }

    method FindUser(name: string) returns (found: Option<nat>)
      ensures found == Find(users, name)
    {
      for i := 0 to |users|
        invariant forall j :: 0 <= j < i ==> users[j].username != name
      {
        if users[i].username == name {
          FindUnique(users, Some(i), name);
          return Some(i);
        }
      }
      FindUnique(users, None, name);
      return None;
    }

    method ActiveAdminCount() returns (count: nat)
      ensures count == ActiveAdmins(users)
    {
      count := 0;
      for i := 0 to |users|
        invariant count == ActiveAdmins(users[..i])
      {
        AdminsUpTo(users, i);
        if users[i].role == Admin && !users[i].disabled {
          count := count + 1;
        }
      }
      assert users[..|users|] == users;
    }

    method EmailTakenByOther(email: string, except: string) returns (taken: bool)
      ensures taken == EmailInUse(users, email, except)
    {
      for i := 0 to |users|
        invariant forall j :: 0 <= j < i ==> users[j].username == except || Lower(users[j].email) != Lower(email)
      {
        if users[i].username != except && Lower(users[i].email) == Lower(email) {
          return true;
        }
      }
      return false;
    }

    /** replacePassword on the i-th account. */
    method Replace(i: nat, password: string, salt: nat) returns (err: Option<IdentityError>)
      requires i < |users|
      modifies this
      ensures policy == old(policy)
      ensures match ReplacePassword(policy, old(users[i]), password, salt)
        case Ok(u) => err == None && users == old(users)[i := u]
        case Err(e) => err == Some(e)
    {
      var u := users[i];
      if !PasswordAccepted(policy, password, u.username, u.email) {
        return Some(WeakPassword);
      }
      var recent := Recent(u);
      for k := 0 to |recent|
        invariant policy == old(policy) && users == old(users)
        invariant forall j :: 0 <= j < k ==> !Matches(recent[j], password)
      {
        if Matches(recent[k], password) {
          return Some(ReusedPassword);
        }
      }
      var limit := NormalizedPolicy(policy).history;
      var history := recent;
      if |history| > limit {
        history := history[..limit];
      }
      users := users[i := u.(history := history, password := Hash(password, false, salt), sessionVersion := u.sessionVersion + 1)];
      return None;
    }

    method UpdateAdmin(op: Op) returns (err: Option<IdentityError>)
      requires op.UpdateAdmin?
      modifies this
      ensures Agrees(ApplyUpdateAdmin(old(Doc()), op), err, Doc())
    {
      ghost var before := users;
      var found := FindUser(op.username);
      if found == None {
        return Some(NotFound);
      }
      var i := found.value;
      var wasAdmin := users[i].role == Admin && !users[i].disabled;
      err := Edit(i, op);
      if err.Some? {
        return;
      }
      var count := ActiveAdminCount();
      if wasAdmin && (users[i].role != Admin || users[i].disabled) && count <= 1 {
        return Some(LastAdmin);
      }
      err := FinishUpdate(i, op);
      assert err == None ==> users == before[i := users[i]];
    }

    /** The part of an update before the last-admin guard. */
    method Edit(i: nat, op: Op) returns (err: Option<IdentityError>)
      requires op.UpdateAdmin? && i < |users|
      modifies this
      ensures policy == old(policy) && err == EmailProblem(old(users), op)
      ensures err == None ==> users == old(users)[i := Edited(old(users[i]), op)]
    {
      var u := users[i];
      if op.newEmail.Some? {
        var email := NormalizeEmail(op.newEmail.value);
        if email != "" {
          if !EmailShape(email) {
            return Some(EmailInvalid);
          }
          var taken := EmailTakenByOther(email, op.username);
          if taken {
            return Some(EmailTaken);
          }
        }
        u := u.(email := email);
      }
      if op.newRole.Some? {
        u := u.(role := op.newRole.value);
      }
      if op.newDisabled.Some? {
        u := u.(disabled := op.newDisabled.value);
      }
      users := users[i := u];
      return None;
    }

    /** The part of an update after the last-admin guard. */
    method FinishUpdate(i: nat, op: Op) returns (err: Option<IdentityError>)
      requires op.UpdateAdmin? && i < |users|
      modifies this
      ensures policy == old(policy)
      ensures match Reset(policy, old(users[i]), op)
        case Ok(u) => err == None && users == old(users)[i := u]
        case Err(e) => err == Some(e)
    {
      if op.password != "" {
        err := Replace(i, op.password, op.salt);
        if err.Some? {
          return;
        }
      }
      if op.resetMfa {
        users := users[i := ClearMfa(users[i])];
      }
      users := users[i := Bumped(users[i])];
      return None;
    }

    method Delete(name: string) returns (err: Option<IdentityError>)
      modifies this
      ensures Agrees(ApplyDelete(old(Doc()), name), err, Doc())
    {
      for i := 0 to |users|
        invariant Doc() == old(Doc())
        invariant forall j :: 0 <= j < i ==> users[j].username != name
      {
        if users[i].username == name {
          FindUnique(users, Some(i), name);
          var count := ActiveAdminCount();
          if users[i].role == Admin && !users[i].disabled && count <= 1 {
            return Some(LastAdmin);
          }
          users := users[..i] + users[i + 1..];
          return None;
        }
      }
      FindUnique(users, None, name);
      return Some(NotFound);
    }

    method SpendRecoveryCode(name: string, hash: string) returns (err: Option<IdentityError>)
      modifies this
      ensures Agrees(ApplyRecoveryCode(old(Doc()), name, hash), err, Doc())
    {
      var found := FindUser(name);
      if found == None || users[found.value].disabled || !users[found.value].mfa {
        return Some(InvalidCredentials);
      }
      var u := users[found.value];
      for k := 0 to |u.codes|
        invariant Doc() == old(Doc())
        invariant forall j :: 0 <= j < k ==> u.codes[j] != hash
      {
        if u.codes[k] == hash {
          assert FirstIndex(u.codes, hash) == Some(k);
          users := users[found.value := u.(codes := u.codes[..k] + u.codes[k + 1..])];
          return None;
        }
      }
      return Some(InvalidCredentials);
    }

    method UpdatePolicy(requested: SecurityPolicy)
      modifies this
      ensures Doc() == ApplyPolicy(old(Doc()), requested)
    {
      var p := NormalizedPolicy(requested);
      var previous := policy;
      policy := p;
      if previous.mode != p.mode {
        for i := 0 to |users|
          invariant policy == p && |users| == |old(users)|
          invariant forall j :: i <= j < |users| ==> users[j] == old(users)[j]
          invariant forall j :: 0 <= j < i ==>
            users[j] == if RequiresMfa(p, old(users)[j].role) && !old(users)[j].mfa then Bumped(old(users)[j]) else old(users)[j]
        {
          if RequiresMfa(p, users[i].role) && !users[i].mfa {
            users := users[i := Bumped(users[i])];
          }
        }
      }
      assert Doc().users == ApplyPolicy(old(Doc()), requested).users;
    }

    method Create(op: Op) returns (err: Option<IdentityError>)
      requires op.Create?
      modifies this
      ensures Agrees(ApplyCreate(old(Doc()), op), err, Doc())
    {
      var name, email := Trim(op.username), NormalizeEmail(op.email);
      if name == "" || op.password == "" {
        return Some(Required);
      }
      if |name| > 128 || exists c :: c in name && c in {'\r', '\n', '\t', '/', '\\'} {
        return Some(BadUsername);
      }
      if email != "" && !EmailShape(email) {
        return Some(EmailInvalid);
      }
      var found := FindUser(name);
      if found.Some? {
        return Some(Exists);
      }
      if email != "" {
        var taken := EmailTakenByOther(email, "");
        if taken {
          return Some(EmailTaken);
        }
      }
      if !PasswordAccepted(policy, op.password, name, email) {
        return Some(WeakPassword);
      }
      users := users + [User(name, Hash(op.password, false, op.salt), [], email, op.role, false, false, "", "", [], 1)];
      return None;
    }

    /** The enabled account whose owner gave its password. */
    method OwnUser(name: string, current: string) returns (own: Result<nat, IdentityError>)
      ensures own == OwnAccount(Doc(), name, current)
    {
      var found := FindUser(name);
      if found == None || users[found.value].disabled || !Matches(users[found.value].password, current) {
        return Err(InvalidCredentials);
      }
      return Ok(found.value);
    }

    method ChangePassword(op: Op) returns (err: Option<IdentityError>)
      requires op.ChangePassword?
      modifies this
      ensures Agrees(ApplyChangePassword(old(Doc()), op), err, Doc())
    {
      var own := OwnUser(op.username, op.current);
      if own.Err? {
        return Some(own.error);
      }
      err := Replace(own.value, op.password, op.salt);
    }

    method ChangeEmail(op: Op) returns (err: Option<IdentityError>)
      requires op.ChangeEmail?
      modifies this
      ensures Agrees(ApplyChangeEmail(old(Doc()), op), err, Doc())
    {
      var email := NormalizeEmail(op.email);
      if email != "" && !EmailShape(email) {
        return Some(EmailInvalid);
      }
      var own := OwnUser(op.username, op.current);
      if own.Err? {
        return Some(own.error);
      }
      if email != "" {
        var taken := EmailTakenByOther(email, op.username);
        if taken {
          return Some(EmailTaken);
        }
      }
      users := users[own.value := Bumped(users[own.value].(email := email))];
      return None;
    }

    method BeginMfa(op: Op) returns (err: Option<IdentityError>)
      requires op.BeginMfa?
      modifies this
      ensures Agrees(ApplyMfa(old(Doc()), op), err, Doc())
    {
      if policy.mode == MFADisabled {
        return Some(MfaUnavailable);
      }
      var own := OwnUser(op.username, op.current);
      if own.Err? {
        return Some(own.error);
      }
      users := users[own.value := users[own.value].(pendingTotp := op.secret, codes := op.hashes)];
      return None;
    }

    method ConfirmMfa(op: Op) returns (err: Option<IdentityError>)
      requires op.ConfirmMfa?
      modifies this
      ensures Agrees(ApplyMfa(old(Doc()), op), err, Doc())
    {
      var found := FindUser(op.username);
      if found == None || users[found.value].pendingTotp == "" {
        return Some(NoPending);
      }
      if !op.codeValid {
        return Some(BadCode);
      }
      var u := users[found.value];
      u := u.(totp := u.pendingTotp);
      u := u.(pendingTotp := "", mfa := true);
      users := users[found.value := Bumped(u)];
      return None;
    }

    method DisableMfa(op: Op) returns (err: Option<IdentityError>)
      requires op.DisableMfa?
      modifies this
      ensures Agrees(ApplyMfa(old(Doc()), op), err, Doc())
    {
      var found := FindUser(op.username);
      if found == None || !users[found.value].mfa {
        return Some(MfaNotEnabled);
      }
      var u := users[found.value];
      if RequiresMfa(policy, u.role) {
        return Some(MfaRequired);
      }
      if !Matches(u.password, op.current) {
        return Some(InvalidCredentials);
      }
      if !op.codeValid {
        return Some(BadCode);
      }
      users := users[found.value := Bumped(ClearMfa(u))];
      return None;
    }

    /** Stores a new hash of a legacy password, if the account still has that password. */
    method StoreRehash(name: string, expected: Stored, salt: nat)
      modifies this
      ensures Doc() == Rehashed(old(Doc()), name, expected, salt)
    {
      var found := FindUser(name);
      if found.Some? && users[found.value].password == expected && expected.Hash? {
        users := users[found.value := users[found.value].(password := Hash(expected.plain, false, salt))];
      }
    }

    /** One mutation of the stored document: the policy is normalized, then the change is made. */
    method Change(op: Op) returns (err: Option<IdentityError>)
      modifies this
      ensures Agrees(Apply(old(Doc()), op), err, Doc())
    {
      policy := NormalizedPolicy(policy);
      match op {
        case Create(_, _, _, _, _) => err := Create(op);
        case UpdateAdmin(_, _, _, _, _, _, _) => err := UpdateAdmin(op);
        case Delete(name) => err := Delete(name);
        case ChangePassword(_, _, _, _) => err := ChangePassword(op);
        case ChangeEmail(_, _, _) => err := ChangeEmail(op);
        case BeginMfa(_, _, _, _) => err := BeginMfa(op);
        case ConfirmMfa(_, _) => err := ConfirmMfa(op);
        case DisableMfa(_, _, _) => err := DisableMfa(op);
        case UseRecoveryCode(name, hash) => err := SpendRecoveryCode(name, hash);
        case SetPolicy(p) => UpdatePolicy(p); err := None;
        case Rehash(name, expected, salt) => StoreRehash(name, expected, salt); err := None;
        case RecordAuthentication(_) => err := None;
      }
    }
  }

  // ---------- a replica's copy ----------

  /** applyDocumentLocked: later accounts replace earlier ones of the same name. */
  function Applied(users: seq<User>): map<string, User> {
    if users == [] then map[]
    else
      var rest, u := Applied(users[..|users| - 1]), users[|users| - 1];
      var name := Trim(u.username);
      if name == "" || u.password.NoPassword? then rest
      else rest[name := u.(username := name, sessionVersion := Effective(u.sessionVersion))]
  }

  /** For a document that keeps the identity invariants, the copy holds exactly its accounts. */
  lemma {:induction false} AppliedIsFound(users: seq<User>, name: string)
    requires NamesOK(users) && PasswordsOK(users)
    ensures name in Applied(users) <==> Find(users, name).Some?
    ensures name in Applied(users) ==>
      var u := users[Find(users, name).value];
      Applied(users)[name] == u.(sessionVersion := Effective(u.sessionVersion))
    decreases |users|
  {
    if users != [] {
      var n := |users| - 1;
      var rest, u := users[..n], users[n];
      assert Applied(users) == Applied(rest)[u.username := u.(sessionVersion := Effective(u.sessionVersion))] by {
        assert u.username != "" && Trim(u.username) == u.username && u.password.Hash?;
      }
      AppliedIsFound(rest, name);
      FoundLast(users, name);
    }
  }

  lemma {:induction false} FoundLast(users: seq<User>, name: string)
    requires users != [] && forall j :: 0 <= j < |users| - 1 ==> users[j].username != users[|users| - 1].username
    ensures Find(users, name) ==
      if users[|users| - 1].username == name then Some(|users| - 1) else Find(users[..|users| - 1], name)
  {
    var n := |users| - 1;
    FindUnique(users, if users[n].username == name then Some(n) else Find(users[..n], name), name);
  }

  class Replica {
    var users: map<string, User>
    var policy: SecurityPolicy

    /** The replica holds the document's accounts. */
    ghost predicate Holds(d: Document)
      reads this
    {
      users == Applied(d.users) && policy == NormalizedPolicy(d.policy)
    }

    constructor ()
      ensures users == map[]
    {
      users := map[];
      policy := SecurityPolicy(15, 128, 5, true, MFAOptional);
    }

    method ApplyDocument(d: Document)
      modifies this
      ensures Holds(d)
    {
      var loaded := map[];
      for i := 0 to |d.users|
        invariant loaded == Applied(d.users[..i])
      {
        assert d.users[..i + 1][..i] == d.users[..i];
        var u := d.users[i];
        u := u.(username := Trim(u.username));
        if u.username == "" || u.password.NoPassword? {
          continue;
        }
        if u.sessionVersion < 1 {
          u := u.(sessionVersion := 1);
        }
        loaded := loaded[u.username := u];
      }
      assert d.users[..|d.users|] == d.users;
      users := loaded;
      policy := NormalizedPolicy(d.policy);
    }

    method ValidateSession(s: Session, ghost d: Document) returns (valid: bool)
      requires Holds(d) && UsersOK(d.users)
      ensures valid == SessionValid(d, s)
    {
      AppliedIsFound(d.users, s.username);
      if s.username !in users {
        return false;
      }
      var current := users[s.username];
      return !current.disabled && current.sessionVersion == s.version && current.role == s.role;
    }
  }
}
