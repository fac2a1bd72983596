/** The identity document and the mutations of it (apps/api/internal/auth/users.go and password.go).
    A password hash is modelled by the password it matches. */
module IdentityDocument {
  import opened Common
  import opened ProviderNames

  datatype Role = Viewer | Operator | Admin

  datatype MFAMode = MFADisabled | MFAOptional | MFARequiredAdmins | MFARequiredAll

  datatype SecurityPolicy = SecurityPolicy(minimum: int, maximum: int, history: int, blockCommon: bool, mode: MFAMode)

  /** A stored hash: the password it matches, whether it is of the legacy kind, and its salt. */
  datatype Stored = NoPassword | Hash(plain: string, legacy: bool, salt: nat)

  datatype User = User(
    username: string, password: Stored, history: seq<Stored>, email: string, role: Role, disabled: bool,
    mfa: bool, totp: string, pendingTotp: string, codes: seq<string>, sessionVersion: int)

  datatype Document = Document(policy: SecurityPolicy, users: seq<User>)

  datatype IdentityError =
    | NotFound | Exists | Required | BadUsername | EmailInvalid | EmailTaken | WeakPassword | LastAdmin
    | ReusedPassword | InvalidCredentials | MfaUnavailable | NoPending | BadCode | MfaNotEnabled | MfaRequired

  datatype Op =
    | Create(username: string, email: string, password: string, role: Role, salt: nat)
    | UpdateAdmin(username: string, newEmail: Option<string>, password: string, newRole: Option<Role>,
                  newDisabled: Option<bool>, resetMfa: bool, salt: nat)
    | Delete(username: string)
    | ChangePassword(username: string, current: string, password: string, salt: nat)
    | ChangeEmail(username: string, current: string, email: string)
    | BeginMfa(username: string, current: string, secret: string, hashes: seq<string>)
    | ConfirmMfa(username: string, codeValid: bool)
    | DisableMfa(username: string, current: string, codeValid: bool)
    | UseRecoveryCode(username: string, hash: string)
    | SetPolicy(policy: SecurityPolicy)
    | Rehash(username: string, expected: Stored, salt: nat)
    | RecordAuthentication(username: string)

  // ---------- policy ----------

  function Clamp(lo: int, x: int, hi: int): int { if x < lo then lo else if x > hi then hi else x }

  function NormalizedPolicy(p: SecurityPolicy): SecurityPolicy {
    var floor := if p.mode == MFARequiredAll then 8 else 15;
    var minimum := if p.minimum < floor then floor else p.minimum;
    var maximum := Clamp(64, p.maximum, 256);
    p.(minimum := if minimum > maximum then maximum else minimum, maximum := maximum, history := Clamp(0, p.history, 24))
  }

  predicate RequiresMfa(p: SecurityPolicy, role: Role) {
    p.mode == MFARequiredAll || (p.mode == MFARequiredAdmins && role == Admin)
  }

  const COMMON: set<string> := {
    "123456789012345", "adminadminadmin", "changemechangeme", "correcthorsebatterystaple", "letmeinletmein",
    "passwordpassword", "password123456", "qwertyqwerty123", "welcome1234567", "longhorn-highland", "highland-highland" }

  predicate Contains(s: string, part: string) {
    part <= s || (s != "" && Contains(s[1..], part))
  }

  function BeforeAt(email: string): string {
    if email == "" || email[0] == '@' then "" else [email[0]] + BeforeAt(email[1..])
  }

  predicate Personal(text: string, personal: string) { |personal| >= 4 && Contains(text, personal) }

  predicate PasswordAccepted(policy: SecurityPolicy, password: string, username: string, email: string) {
    var p := NormalizedPolicy(policy);
    var text := Trim(Lower(password));
    && p.minimum <= |password| <= p.maximum && '\0' !in password
    && (p.blockCommon ==>
      text !in COMMON && !Personal(text, Lower(username)) && !Personal(text, BeforeAt(Lower(email))))
  }

  // ---------- lookups ----------

  function NormalizeEmail(e: string): string { Lower(Trim(e)) }

  /** The part of validEmail that does not parse the address. */
  predicate EmailShape(e: string) { |e| <= 254 && '\r' !in e && '\n' !in e && '@' in e }

  predicate Matches(stored: Stored, password: string) { stored.Hash? && stored.plain == password }

  function Find(users: seq<User>, name: string): (r: Option<nat>)
    ensures r.Some? ==> r.value < |users| && users[r.value].username == name
    ensures r.Some? ==> forall i :: 0 <= i < r.value ==> users[i].username != name
    ensures r == None ==> forall i :: 0 <= i < |users| ==> users[i].username != name
  {
    if users == [] then None
    else if users[0].username == name then Some(0)
    else
      var r := Find(users[1..], name);
      if r.Some? then Some(r.value + 1) else None
  }

  predicate Active(u: User) { u.role == Admin && !u.disabled }

  function ActiveAdmins(users: seq<User>): nat {
    if users == [] then 0 else ActiveAdmins(users[..|users| - 1]) + if Active(users[|users| - 1]) then 1 else 0
  }

  predicate EmailInUse(users: seq<User>, email: string, except: string) {
    exists i :: 0 <= i < |users| && users[i].username != except && Lower(users[i].email) == Lower(email)
  }

  // ---------- mutations ----------

  function ClearMfa(u: User): User { u.(mfa := false, totp := "", pendingTotp := "", codes := []) }

  function Bumped(u: User): User { u.(sessionVersion := u.sessionVersion + 1) }

  function Recent(u: User): seq<Stored> { [u.password] + u.history }

  function ReplacePassword(policy: SecurityPolicy, u: User, password: string, salt: nat): Result<User, IdentityError> {
    if !PasswordAccepted(policy, password, u.username, u.email) then Err(WeakPassword)
    else if exists i :: 0 <= i < |Recent(u)| && Matches(Recent(u)[i], password) then Err(ReusedPassword)
    else
      var limit := NormalizedPolicy(policy).history;
      var history := if |Recent(u)| > limit then Recent(u)[..limit] else Recent(u);
      Ok(Bumped(u.(history := history, password := Hash(password, false, salt))))
  }

  function Put(d: Document, i: nat, u: User): Document
    requires i < |d.users|
  {
    d.(users := d.users[i := u])
  }

  function Without(users: seq<User>, i: nat): seq<User>
    requires i < |users|
  {
    users[..i] + users[i + 1..]
  }

  function ApplyCreate(d: Document, op: Op): Result<Document, IdentityError>
    requires op.Create?
  {
    var name, email := Trim(op.username), NormalizeEmail(op.email);
    if name == "" || op.password == "" then Err(Required)
    else if |name| > 128 || exists c :: c in name && c in {'\r', '\n', '\t', '/', '\\'} then Err(BadUsername)
    else if email != "" && !EmailShape(email) then Err(EmailInvalid)
    else if Find(d.users, name).Some? then Err(Exists)
    else if email != "" && EmailInUse(d.users, email, "") then Err(EmailTaken)
    else if !PasswordAccepted(d.policy, op.password, name, email) then Err(WeakPassword)
    else Ok(d.(users := d.users + [User(name, Hash(op.password, false, op.salt), [], email, op.role, false, false, "", "", [], 1)]))
  }

  /** The account with the e-mail address, role and disabled flag an administrator sets. */
  function Edited(u: User, op: Op): User
    requires op.UpdateAdmin?
  {
    var u1 := if op.newEmail.Some? then u.(email := NormalizeEmail(op.newEmail.value)) else u;
    var u2 := if op.newRole.Some? then u1.(role := op.newRole.value) else u1;
    if op.newDisabled.Some? then u2.(disabled := op.newDisabled.value) else u2
  }

  function EmailProblem(users: seq<User>, op: Op): Option<IdentityError>
    requires op.UpdateAdmin?
  {
    var email := if op.newEmail.Some? then NormalizeEmail(op.newEmail.value) else "";
    if email == "" then None
    else if !EmailShape(email) then Some(EmailInvalid)
    else if EmailInUse(users, email, op.username) then Some(EmailTaken)
    else None
  }

  /** The rest of the update: a new password, second factors removed, sessions ended. */
  function Reset(policy: SecurityPolicy, u: User, op: Op): (r: Result<User, IdentityError>)
    requires op.UpdateAdmin?
    ensures r.Ok? ==> r.value.username == u.username && r.value.email == u.email && Active(r.value) == Active(u)
    ensures r.Ok? && u.password.Hash? ==> r.value.password.Hash?
    ensures r.Ok? ==> r.value.sessionVersion > u.sessionVersion
  {
    var r := if op.password != "" then ReplacePassword(policy, u, op.password, op.salt) else Ok(u);
    if r.Err? then r else Ok(Bumped(if op.resetMfa then ClearMfa(r.value) else r.value))
  }

  function ApplyUpdateAdmin(d: Document, op: Op): Result<Document, IdentityError>
    requires op.UpdateAdmin?
  {
    var found := Find(d.users, op.username);
    if found == None then Err(NotFound)
    else
      var i, u0 := found.value, d.users[found.value];
      var problem := EmailProblem(d.users, op);
      if problem.Some? then Err(problem.value)
      else
        var u1 := Edited(u0, op);
        if Active(u0) && !Active(u1) && ActiveAdmins(d.users[i := u1]) <= 1 then Err(LastAdmin)
        else
          var r := Reset(d.policy, u1, op);
          if r.Err? then Err(r.error) else Ok(Put(d, i, r.value))
  }

  function ApplyDelete(d: Document, name: string): Result<Document, IdentityError> {
    var found := Find(d.users, name);
    if found == None then Err(NotFound)
    else if Active(d.users[found.value]) && ActiveAdmins(d.users) <= 1 then Err(LastAdmin)
    else Ok(d.(users := Without(d.users, found.value)))
  }

  /** The mutations of one enabled account by its owner; `current` is the password given. */
  function OwnAccount(d: Document, name: string, current: string): Result<nat, IdentityError> {
    var found := Find(d.users, name);
    if found == None || d.users[found.value].disabled || !Matches(d.users[found.value].password, current) then
      Err(InvalidCredentials)
    else Ok(found.value)
  }

  function ApplyChangePassword(d: Document, op: Op): Result<Document, IdentityError>
    requires op.ChangePassword?
  {
    var i := OwnAccount(d, op.username, op.current);
    if i.Err? then Err(i.error)
    else
      var r := ReplacePassword(d.policy, d.users[i.value], op.password, op.salt);
      if r.Err? then Err(r.error) else Ok(Put(d, i.value, r.value))
  }

  function ApplyChangeEmail(d: Document, op: Op): Result<Document, IdentityError>
    requires op.ChangeEmail?
  {
    var email := NormalizeEmail(op.email);
    if email != "" && !EmailShape(email) then Err(EmailInvalid)
    else
      var i := OwnAccount(d, op.username, op.current);
      if i.Err? then Err(i.error)
      else if email != "" && EmailInUse(d.users, email, op.username) then Err(EmailTaken)
      else Ok(Put(d, i.value, Bumped(d.users[i.value].(email := email))))
  }

  function ApplyMfa(d: Document, op: Op): Result<Document, IdentityError>
    requires op.BeginMfa? || op.ConfirmMfa? || op.DisableMfa?
  {
    match op
    case BeginMfa(name, current, secret, hashes) =>
      if d.policy.mode == MFADisabled then Err(MfaUnavailable)
      else
        var i := OwnAccount(d, name, current);
        if i.Err? then Err(i.error)
        else Ok(Put(d, i.value, d.users[i.value].(pendingTotp := secret, codes := hashes)))
    case ConfirmMfa(name, codeValid) =>
      var found := Find(d.users, name);
      if found == None || d.users[found.value].pendingTotp == "" then Err(NoPending)
      else if !codeValid then Err(BadCode)
      else
        var u := d.users[found.value];
        Ok(Put(d, found.value, Bumped(u.(totp := u.pendingTotp, pendingTotp := "", mfa := true))))
    case DisableMfa(name, current, codeValid) =>
      var found := Find(d.users, name);
      if found == None || !d.users[found.value].mfa then Err(MfaNotEnabled)
      else if RequiresMfa(d.policy, d.users[found.value].role) then Err(MfaRequired)
      else if !Matches(d.users[found.value].password, current) then Err(InvalidCredentials)
      else if !codeValid then Err(BadCode)
      else Ok(Put(d, found.value, Bumped(ClearMfa(d.users[found.value]))))
  }

  function FirstIndex(codes: seq<string>, hash: string): (r: Option<nat>)
    ensures r.Some? ==> r.value < |codes| && codes[r.value] == hash
    ensures r.Some? ==> forall i :: 0 <= i < r.value ==> codes[i] != hash
    ensures r == None ==> hash !in codes
  {
    if codes == [] then None
    else if codes[0] == hash then Some(0)
    else
      var r := FirstIndex(codes[1..], hash);
      if r.Some? then Some(r.value + 1) else None
  }

  function ApplyRecoveryCode(d: Document, name: string, hash: string): Result<Document, IdentityError> {
    var found := Find(d.users, name);
    if found == None || d.users[found.value].disabled || !d.users[found.value].mfa then Err(InvalidCredentials)
    else
      var u := d.users[found.value];
      var at := FirstIndex(u.codes, hash);
      if at == None then Err(InvalidCredentials)
      else Ok(Put(d, found.value, u.(codes := u.codes[..at.value] + u.codes[at.value + 1..])))
  }

  function ApplyPolicy(d: Document, policy: SecurityPolicy): Document {
    var p := NormalizedPolicy(policy);
    Document(p,
      if d.policy.mode == p.mode then d.users
      else seq(|d.users|, i requires 0 <= i < |d.users| =>
             if RequiresMfa(p, d.users[i].role) && !d.users[i].mfa then Bumped(d.users[i]) else d.users[i]))
  }

  /** Authenticate stores a new hash of a legacy password unless the account has another one by now. */
  function Rehashed(d: Document, name: string, expected: Stored, salt: nat): Document {
    var found := Find(d.users, name);
    if found == None || d.users[found.value].password != expected || expected.NoPassword? then d
    else Put(d, found.value, d.users[found.value].(password := Hash(expected.plain, false, salt)))
  }

  /** One call of mutate on the stored document: the policy is normalized first, and a failed change
      yields no document. */
  function Apply(stored: Document, op: Op): Result<Document, IdentityError> {
    var d := stored.(policy := NormalizedPolicy(stored.policy));
    match op
    case Create(_, _, _, _, _) => ApplyCreate(d, op)
    case UpdateAdmin(_, _, _, _, _, _, _) => ApplyUpdateAdmin(d, op)
    case Delete(name) => ApplyDelete(d, name)
    case ChangePassword(_, _, _, _) => ApplyChangePassword(d, op)
    case ChangeEmail(_, _, _) => ApplyChangeEmail(d, op)
    case BeginMfa(_, _, _, _) => ApplyMfa(d, op)
    case ConfirmMfa(_, _) => ApplyMfa(d, op)
    case DisableMfa(_, _, _) => ApplyMfa(d, op)
    case UseRecoveryCode(name, hash) => ApplyRecoveryCode(d, name, hash)
    case SetPolicy(p) => Ok(ApplyPolicy(d, p))
    case Rehash(name, expected, salt) => Ok(Rehashed(d, name, expected, salt))
    case RecordAuthentication(_) => Ok(d)
  }
}
