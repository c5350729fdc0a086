/**
 * Password reset and login (backend/src/services/auth.service.ts).
 *
 * Requesting a reset stores a six-digit code for the user that expires
 * after fifteen minutes; resetting checks the code, then its expiry, then
 * replaces the password hash and deletes the code; login refuses a
 * password older than thirty days before it compares the password. Each
 * path writes its own audit rows. Every service is a pure `...Spec`
 * function of the tables and the call's context, and a method that makes
 * the same store calls in the source's order on a `Database`.
 */
module AuthService {
  import opened Common
  import opened Store
  import opened Errors
  import opened Env
  import Primitives

  const RESET_CODE_TTL_MS: nat := 15 * 60 * 1000
  const THIRTY_DAYS_MS: nat := 30 * 24 * 60 * 60 * 1000

  /** `maskEmail`: the first character of the local part, `***@`, then the domain. */
  function MaskEmail(email: string): string
  {
    var parts := Split(email, '@');
    var user := parts[0];
    (if user == [] then "undefined" else [user[0]]) + "***@" + (if |parts| >= 2 then parts[1] else "undefined")
  }

  /** For `local@domain` the mask keeps the first letter and the domain. */
  lemma MaskEmailShape(local: string, domain: string)
    requires local != [] && '@' !in local && '@' !in domain
    ensures MaskEmail(local + ['@'] + domain) == [local[0]] + "***@" + domain
  {
    SplitAtFirst(local, domain, '@');
    SplitWithoutSeparator(domain, '@');
    MaskOfParts(local + ['@'] + domain, local, domain);
  }

  /** Whatever follows a second `@` is dropped from the mask. */
  lemma MaskEmailDropsRest(local: string, domain: string, rest: string)
    requires local != [] && '@' !in local && '@' !in domain
    ensures MaskEmail(local + ['@'] + (domain + ['@'] + rest)) == [local[0]] + "***@" + domain
  {
    var tail := domain + ['@'] + rest;
    SplitAtFirst(local, tail, '@');
    SplitAtFirst(domain, rest, '@');
    MaskOfParts(local + ['@'] + tail, local, domain);
  }

  /** The mask read off the first two `@`-separated parts. */
  lemma MaskOfParts(email: string, local: string, domain: string)
    requires local != [] && |Split(email, '@')| >= 2
    requires Split(email, '@')[0] == local && Split(email, '@')[1] == domain
    ensures MaskEmail(email) == [local[0]] + "***@" + domain
  {
  }

  /** Without `@` the domain reads "undefined"; with an empty local part the first letter does. */
  lemma MaskEmailDegenerate(email: string)
    ensures '@' !in email ==> MaskEmail(email) == (if email == [] then "undefined" else [email[0]]) + "***@undefined"
    ensures email != [] && email[0] == '@' ==> MaskEmail(email)[..9] == "undefined"
  {
    if '@' !in email {
      assert Split(email, '@') == [email];
    }
    if email != [] && email[0] == '@' {
      assert FirstIndex(email, '@') == 0;
    }
  }

  /** `crypto.randomInt(100000, 999999).toString()`. */
  function NewResetCode(draw: nat): string
  {
    NatToDecimal(Primitives.RandomInt(100000, 999999, draw))
  }

  /** A reset code is six decimal digits denoting 100000 to 999998: 999999 is never issued. */
  lemma ResetCodeShape(draw: nat)
    ensures |NewResetCode(draw)| == 6
    ensures forall i :: 0 <= i < 6 ==> '0' <= NewResetCode(draw)[i] <= '9'
    ensures 100000 <= DecimalValue(NewResetCode(draw)) <= 999998
    ensures NewResetCode(draw) != "999999"
  {
    var n := Primitives.RandomInt(100000, 999999, draw);
    assert Pow10(5) == 100000 && Pow10(6) == 1000000;
    NatToDecimalLength(n, 6);
    DecimalValueOfNatToDecimal(n);
    assert DecimalValue("9") == 9;
    assert "99"[..1] == "9";
    assert "999"[..2] == "99";
    assert "9999"[..3] == "999";
    assert "99999"[..4] == "9999";
    assert "999999"[..5] == "99999";
    assert DecimalValue("999999") == 999999;
  }

  // requestPasswordResetService

  function ResetRequestUnknownAudit(ctx: Context, email: string): AuditEntry
  {
    Entry(ctx, None, "UNKNOWN", "PASSWORD_RESET_REQUEST", "USER", None, false,
          Some(map["reason" := Text("EMAIL_NOT_FOUND"), "email" := Text(Enc(ctx, 0, email))]))
  }

  function ResetRequestAudit(ctx: Context, user: User, email: string): AuditEntry
  {
    Entry(ctx, Some(user.id), "USER", "PASSWORD_RESET_REQUEST", "USER", Some(user.id), true,
          Some(map["email" := Text(Enc(ctx, 0, email))]))
  }

  function RequestPasswordResetSpec(t: Tables, ctx: Context, email: string): Step<()>
  {
    match FindByEmail(t.users, email)
    case None =>
      Step(Log(t, ctx, ResetRequestUnknownAudit(ctx, email)), Err(NotFoundError("User not found")))
    case Some(user) =>
      var t1 := PutResetCode(t, user.id, ResetCode(NewResetCode(ctx.draw), ctx.now + RESET_CODE_TTL_MS));
      Step(Log(t1, ctx, ResetRequestAudit(ctx, user, email)), Ok(()))
  }

  method RequestPasswordReset(db: Database, ctx: Context, email: string) returns (r: Result<(), Error>)
    modifies db
    ensures db.Snapshot() == RequestPasswordResetSpec(old(db.Snapshot()), ctx, email).tables
    ensures r == RequestPasswordResetSpec(old(db.Snapshot()), ctx, email).result
  {
    var user := FindByEmail(db.users, email);
    if user.None? {
      WriteLog(db, ctx, ResetRequestUnknownAudit(ctx, email));
      return Err(NotFoundError("User not found"));
    }
    var code := NewResetCode(ctx.draw);
    var expiresAt := ctx.now + RESET_CODE_TTL_MS;
    db.UpsertResetCode(user.value.id, ResetCode(code, expiresAt));
    WriteLog(db, ctx, ResetRequestAudit(ctx, user.value, email));
    r := Ok(());
  }

  /** An unknown e-mail: NotFound, no reset code, one failure audit by an UNKNOWN actor. */
  lemma RequestResetUnknownEmail(t: Tables, ctx: Context, email: string)
    requires FindByEmail(t.users, email).None?
    ensures var s := RequestPasswordResetSpec(t, ctx, email);
      && s.result == Err(NotFoundError("User not found"))
      && s.tables.(audit := t.audit) == t
      && (AuditStoreUp(ctx) ==>
            && |s.tables.audit| == |t.audit| + 1
            && var e := s.tables.audit[|t.audit|].entry;
            && e.actorRole == Some("UNKNOWN") && !e.success
            && e.metadata.Some? && e.metadata.value["reason"] == Text("EMAIL_NOT_FOUND"))
  {
  }

  /**
   * A known e-mail: exactly that user's reset entry is replaced by a fresh
   * six-digit code expiring fifteen minutes from now; one success audit.
   */
  lemma RequestResetKnownEmail(t: Tables, ctx: Context, email: string, user: User)
    requires FindByEmail(t.users, email) == Some(user)
    ensures var s := RequestPasswordResetSpec(t, ctx, email);
      && s.result == Ok(())
      && user.id in s.tables.resetCodes
      && s.tables.resetCodes[user.id].expiresAt == ctx.now + 900000
      && |s.tables.resetCodes[user.id].code| == 6
      && 100000 <= DecimalValue(s.tables.resetCodes[user.id].code) <= 999998
      && (forall id :: id != user.id ==> (id in s.tables.resetCodes <==> id in t.resetCodes))
      && (forall id :: id != user.id && id in t.resetCodes ==> s.tables.resetCodes[id] == t.resetCodes[id])
      && s.tables.users == t.users
      && (AuditStoreUp(ctx) ==>
            Appended(t, s.tables) == [Row(ctx, ResetRequestAudit(ctx, user, email))]
            && Appended(t, s.tables)[0].entry.success)
  {
    ResetCodeShape(ctx.draw);
  }

  // resetPasswordService

  function InvalidCodeAudit(ctx: Context, user: User, email: string): AuditEntry
  {
    Entry(ctx, Some(user.id), "USER", "PASSWORD_RESET", "USER", Some(user.id), false,
          Some(map["reason" := Text("INVALID_CODE"), "email" := Text(Enc(ctx, 0, email))]))
  }

  function ResetAudit(ctx: Context, user: User, email: string): AuditEntry
  {
    Entry(ctx, Some(user.id), "USER", "PASSWORD_RESET", "USER", Some(user.id), true,
          Some(map["email" := Text(Enc(ctx, 0, email))]))
  }

  /** The user's stored code is `code`. */
  predicate CodeMatches(t: Tables, id: UserId, code: string)
  {
    id in t.resetCodes && t.resetCodes[id].code == code
  }

  function ResetPasswordSpec(t: Tables, ctx: Context, email: string, code: string, newPassword: string): Step<string>
  {
    match FindByEmail(t.users, email)
    case None => Step(t, Err(NotFoundError("User not found")))
    case Some(user) =>
      if !CodeMatches(t, user.id, code) then
        Step(Log(t, ctx, InvalidCodeAudit(ctx, user, email)), Err(UnauthorizedError("Invalid or expired reset code")))
      else if t.resetCodes[user.id].expiresAt < ctx.now then
        Step(t, Err(UnauthorizedError("Reset code expired")))
      else
        var t1 := SetPassword(t, user.id, ctx.hasher.hash(newPassword, ctx.salt));
        var t2 := DropResetCode(t1, user.id);
        Step(Log(t2, ctx, ResetAudit(ctx, user, email)), Ok("Password reset successfully"))
  }

  method ResetPassword(db: Database, ctx: Context, email: string, code: string, newPassword: string)
    returns (r: Result<string, Error>)
    modifies db
    ensures db.Snapshot() == ResetPasswordSpec(old(db.Snapshot()), ctx, email, code, newPassword).tables
    ensures r == ResetPasswordSpec(old(db.Snapshot()), ctx, email, code, newPassword).result
  {
    var user := FindByEmail(db.users, email);
    if user.None? {
      return Err(NotFoundError("User not found"));
    }
    var id := user.value.id;
    if id !in db.resetCodes || db.resetCodes[id].code != code {
      WriteLog(db, ctx, InvalidCodeAudit(ctx, user.value, email));
      return Err(UnauthorizedError("Invalid or expired reset code"));
    }
    if db.resetCodes[id].expiresAt < ctx.now {
      return Err(UnauthorizedError("Reset code expired"));
    }
    var hashed := ctx.hasher.hash(newPassword, ctx.salt);
    db.UpdatePassword(id, hashed);
    db.DeleteResetCode(id);
    WriteLog(db, ctx, ResetAudit(ctx, user.value, email));
    r := Ok("Password reset successfully");
  }

  /** An unknown e-mail: NotFound, and nothing is written, not even an audit. */
  lemma ResetUnknownEmail(t: Tables, ctx: Context, email: string, code: string, newPassword: string)
    requires FindByEmail(t.users, email).None?
    ensures ResetPasswordSpec(t, ctx, email, code, newPassword) == Step(t, Err(NotFoundError("User not found")))
  {
  }

  /** A missing or different code: Unauthorized, password and code untouched, one INVALID_CODE audit. */
  lemma ResetInvalidCode(t: Tables, ctx: Context, email: string, code: string, newPassword: string, user: User)
    requires FindByEmail(t.users, email) == Some(user)
    requires !CodeMatches(t, user.id, code)
    ensures var s := ResetPasswordSpec(t, ctx, email, code, newPassword);
      && s.result == Err(UnauthorizedError("Invalid or expired reset code"))
      && s.tables.(audit := t.audit) == t
      && (AuditStoreUp(ctx) ==>
            && |s.tables.audit| == |t.audit| + 1
            && var e := s.tables.audit[|t.audit|].entry;
            && !e.success && e.metadata.Some? && e.metadata.value["reason"] == Text("INVALID_CODE"))
  {
  }

  /** A matching but expired code: Unauthorized, nothing written, the code stays. */
  lemma ResetExpired(t: Tables, ctx: Context, email: string, code: string, newPassword: string, user: User)
    requires FindByEmail(t.users, email) == Some(user)
    requires CodeMatches(t, user.id, code) && t.resetCodes[user.id].expiresAt < ctx.now
    ensures ResetPasswordSpec(t, ctx, email, code, newPassword) == Step(t, Err(UnauthorizedError("Reset code expired")))
  {
  }

  /**
   * A matching code not yet expired (expiry at exactly now included): the
   * user's hash becomes the hash of the new password, every other user is
   * unchanged, and `passwordUpdatedAt` is left as it was.
   */
  lemma ResetSucceeds(t: Tables, ctx: Context, email: string, code: string, newPassword: string, user: User)
    requires FindByEmail(t.users, email) == Some(user)
    requires CodeMatches(t, user.id, code) && ctx.now <= t.resetCodes[user.id].expiresAt
    ensures var s := ResetPasswordSpec(t, ctx, email, code, newPassword);
      && s.result == Ok("Password reset successfully")
      && |s.tables.users| == |t.users|
      && (forall i :: 0 <= i < |t.users| && t.users[i].id == user.id ==>
            s.tables.users[i] == t.users[i].(password := ctx.hasher.hash(newPassword, ctx.salt)))
      && (forall i :: 0 <= i < |t.users| && t.users[i].id != user.id ==> s.tables.users[i] == t.users[i])
  {
    ResetTables(t, ctx, email, code, newPassword, user);
  }

  /** After a successful reset a lookup by e-mail address finds the user with the new hash and the old date. */
  lemma ResetFindsUser(t: Tables, ctx: Context, email: string, code: string, newPassword: string, user: User)
    requires FindByEmail(t.users, email) == Some(user)
    requires CodeMatches(t, user.id, code) && ctx.now <= t.resetCodes[user.id].expiresAt
    ensures var s := ResetPasswordSpec(t, ctx, email, code, newPassword);
      && s.result == Ok("Password reset successfully")
      && FindByEmail(s.tables.users, email) == Some(user.(password := ctx.hasher.hash(newPassword, ctx.salt)))
  {
    ResetTables(t, ctx, email, code, newPassword, user);
    FindByEmailWithPassword(t.users, email, user.id, ctx.hasher.hash(newPassword, ctx.salt));
  }

  /** A successful reset deletes exactly the user's code and writes one success audit. */
  lemma ResetConsumesCode(t: Tables, ctx: Context, email: string, code: string, newPassword: string, user: User)
    requires FindByEmail(t.users, email) == Some(user)
    requires CodeMatches(t, user.id, code) && ctx.now <= t.resetCodes[user.id].expiresAt
    ensures var s := ResetPasswordSpec(t, ctx, email, code, newPassword);
      && user.id !in s.tables.resetCodes
      && s.tables.resetCodes == t.resetCodes - {user.id}
      && (AuditStoreUp(ctx) ==> Appended(t, s.tables) == [Row(ctx, ResetAudit(ctx, user, email))])
  {
    ResetTables(t, ctx, email, code, newPassword, user);
  }

  /** The tables after a successful reset, written out. */
  lemma ResetTables(t: Tables, ctx: Context, email: string, code: string, newPassword: string, user: User)
    requires FindByEmail(t.users, email) == Some(user)
    requires CodeMatches(t, user.id, code) && ctx.now <= t.resetCodes[user.id].expiresAt
    ensures var t2 := DropResetCode(SetPassword(t, user.id, ctx.hasher.hash(newPassword, ctx.salt)), user.id);
      ResetPasswordSpec(t, ctx, email, code, newPassword) == Step(Log(t2, ctx, ResetAudit(ctx, user, email)), Ok("Password reset successfully"))
  {
  }

  /** A reset code is single-use: repeating a successful reset fails with the invalid-code error. */
  lemma ResetCodeSingleUse(t: Tables, ctx: Context, ctx2: Context, email: string, code: string, p1: string, p2: string)
    requires ResetPasswordSpec(t, ctx, email, code, p1).result.Ok?
    ensures ResetPasswordSpec(ResetPasswordSpec(t, ctx, email, code, p1).tables, ctx2, email, code, p2).result
         == Err(UnauthorizedError("Invalid or expired reset code"))
  {
    var user := FindByEmail(t.users, email).value;
    ResetConsumesCode(t, ctx, email, code, p1, user);
    ResetFindsUser(t, ctx, email, code, p1, user);
  }

  /**
   * The code a reset request issues is accepted up to and including
   * fifteen minutes after the request, and refused as expired after that.
   */
  lemma RequestThenReset(t: Tables, ctx: Context, ctx2: Context, email: string, newPassword: string)
    requires FindByEmail(t.users, email).Some?
    ensures var t1 := RequestPasswordResetSpec(t, ctx, email).tables;
      var code := NewResetCode(ctx.draw);
      && (ctx2.now <= ctx.now + RESET_CODE_TTL_MS ==> ResetPasswordSpec(t1, ctx2, email, code, newPassword).result.Ok?)
      && (ctx2.now > ctx.now + RESET_CODE_TTL_MS ==>
            ResetPasswordSpec(t1, ctx2, email, code, newPassword).result == Err(UnauthorizedError("Reset code expired")))
  {
    var user := FindByEmail(t.users, email).value;
    var t1 := RequestPasswordResetSpec(t, ctx, email).tables;
    assert t1.users == t.users;
  }

  // loginService

  /** `!passwordUpdatedAt || now - passwordUpdatedAt > THIRTY_DAYS_MS`. */
  predicate PasswordStale(user: User, now: nat)
  {
    user.passwordUpdatedAt.None? || now - user.passwordUpdatedAt.value > THIRTY_DAYS_MS
  }

  function LoginUnknownAudit(ctx: Context, email: string): AuditEntry
  {
    Entry(ctx, None, "UNKNOWN", "LOGIN", "USER", None, false,
          Some(map["reason" := Text("EMAIL_NOT_FOUND"), "email" := Text(Enc(ctx, 0, email))]))
  }

  function BadPasswordAudit(ctx: Context, user: User, email: string): AuditEntry
  {
    Entry(ctx, Some(user.id), "USER", "LOGIN", "USER", Some(user.id), false,
          Some(map["reason" := Text("INVALID_PASSWORD"), "email" := Text(Enc(ctx, 0, email))]))
  }

  function LoginAudit(ctx: Context, user: User, email: string): AuditEntry
  {
    Entry(ctx, Some(user.id), "USER", "LOGIN", "USER", Some(user.id), true,
          Some(map["email" := Text(Enc(ctx, 0, email))]))
  }

  /** The catch block's audit; `k` encryptions happened before it in the call. */
  function LoginErrorAudit(ctx: Context, message: string, email: string, k: nat): AuditEntry
  {
    Entry(ctx, None, "UNKNOWN", "LOGIN", "USER", None, false,
          Some(map["error" := Text(message), "email" := Text(Enc(ctx, k, email))]))
  }

  const INVALID_LOGIN: Error := UnauthorizedError("Invalid email or password")
  const CHANGE_PASSWORD: Error := ChangePasswordError("Password change required. Please update your password.")

  function LoginSpec(t: Tables, ctx: Context, email: string, password: string): Step<User>
  {
    match FindByEmail(t.users, email)
    case None =>
      var t1 := Log(t, ctx, LoginUnknownAudit(ctx, email));
      Step(Log(t1, ctx, LoginErrorAudit(ctx, INVALID_LOGIN.message, email, 1)), Err(INVALID_LOGIN))
    case Some(user) =>
      if PasswordStale(user, ctx.now) then
        Step(Log(t, ctx, LoginErrorAudit(ctx, CHANGE_PASSWORD.message, email, 0)), Err(CHANGE_PASSWORD))
      else if !ctx.hasher.compare(password, user.password) then
        var t1 := Log(t, ctx, BadPasswordAudit(ctx, user, email));
        Step(Log(t1, ctx, LoginErrorAudit(ctx, INVALID_LOGIN.message, email, 1)), Err(INVALID_LOGIN))
      else
        Step(Log(t, ctx, LoginAudit(ctx, user, email)), Ok(user))
  }

  /** The try block's body; the error it throws goes to `Login`'s catch block. */
  method LoginAttempt(db: Database, ctx: Context, email: string, password: string)
    returns (r: Result<User, Error>, encrypted: nat)
    modifies db
    ensures r.Ok? ==> db.Snapshot() == LoginSpec(old(db.Snapshot()), ctx, email, password).tables
    ensures r.Err? ==> LoginSpec(old(db.Snapshot()), ctx, email, password).tables
                       == Log(db.Snapshot(), ctx, LoginErrorAudit(ctx, r.error.message, email, encrypted))
    ensures r == LoginSpec(old(db.Snapshot()), ctx, email, password).result
  {
    encrypted := 0;
    var user := FindByEmail(db.users, email);
    if user.None? {
      WriteLog(db, ctx, LoginUnknownAudit(ctx, email));
      encrypted := 1;
      return Err(INVALID_LOGIN), encrypted;
    }
    if PasswordStale(user.value, ctx.now) {
      return Err(CHANGE_PASSWORD), encrypted;
    }
    var isValid := ctx.hasher.compare(password, user.value.password);
    if !isValid {
      WriteLog(db, ctx, BadPasswordAudit(ctx, user.value, email));
      encrypted := 1;
      return Err(INVALID_LOGIN), encrypted;
    }
    WriteLog(db, ctx, LoginAudit(ctx, user.value, email));
    r := Ok(user.value);
  }

  method Login(db: Database, ctx: Context, email: string, password: string) returns (r: Result<User, Error>)
    modifies db
    ensures db.Snapshot() == LoginSpec(old(db.Snapshot()), ctx, email, password).tables
    ensures r == LoginSpec(old(db.Snapshot()), ctx, email, password).result
  {
    var encrypted;
    r, encrypted := LoginAttempt(db, ctx, email, password);
    if r.Err? {
      WriteLog(db, ctx, LoginErrorAudit(ctx, r.error.message, email, encrypted));
    }
  }

  /** Login changes nothing but the audit log. */
  lemma LoginOnlyAudits(t: Tables, ctx: Context, email: string, password: string)
    ensures var s := LoginSpec(t, ctx, email, password);
      s.tables.(audit := t.audit) == t && t.audit <= s.tables.audit
  {
    match FindByEmail(t.users, email)
    case None =>
      var t1 := Log(t, ctx, LoginUnknownAudit(ctx, email));
      LogEffect(t, ctx, LoginUnknownAudit(ctx, email));
      LogEffect(t1, ctx, LoginErrorAudit(ctx, INVALID_LOGIN.message, email, 1));
    case Some(user) =>
      if PasswordStale(user, ctx.now) {
        LogEffect(t, ctx, LoginErrorAudit(ctx, CHANGE_PASSWORD.message, email, 0));
      } else if !ctx.hasher.compare(password, user.password) {
        var t1 := Log(t, ctx, BadPasswordAudit(ctx, user, email));
        LogEffect(t, ctx, BadPasswordAudit(ctx, user, email));
        LogEffect(t1, ctx, LoginErrorAudit(ctx, INVALID_LOGIN.message, email, 1));
      } else {
        LogEffect(t, ctx, LoginAudit(ctx, user, email));
      }
  }

  /** Unknown e-mail: the not-found audit and the catch-block audit, then the Unauthorized error is rethrown. */
  lemma LoginUnknownEmail(t: Tables, ctx: Context, email: string, password: string)
    requires FindByEmail(t.users, email).None?
    requires AuditStoreUp(ctx)
    ensures var s := LoginSpec(t, ctx, email, password);
      && s.result == Err(UnauthorizedError("Invalid email or password"))
      && |Appended(t, s.tables)| == 2
      && Appended(t, s.tables)[0].entry.metadata.value["reason"] == Text("EMAIL_NOT_FOUND")
      && Appended(t, s.tables)[1].entry.metadata.value["error"] == Text("Invalid email or password")
  {
  }

  /**
   * The rotation gate comes before the password check: a stale password
   * fails with the change-password error whatever the password given, and
   * only the catch-block audit is written.
   */
  lemma LoginStale(t: Tables, ctx: Context, email: string, password: string, user: User)
    requires FindByEmail(t.users, email) == Some(user)
    requires PasswordStale(user, ctx.now)
    requires AuditStoreUp(ctx)
    ensures var s := LoginSpec(t, ctx, email, password);
      && s.result == Err(ChangePasswordError("Password change required. Please update your password."))
      && |Appended(t, s.tables)| == 1
      && Appended(t, s.tables)[0].entry.actorRole == Some("UNKNOWN")
  {
  }

  /** A password changed exactly thirty days ago is not stale; one millisecond later it is. */
  lemma ThirtyDayBoundary(user: User, changedAt: nat)
    requires user.passwordUpdatedAt == Some(changedAt)
    ensures !PasswordStale(user, changedAt + 2592000000)
    ensures PasswordStale(user, changedAt + 2592000001)
  {
  }

  /** A wrong password: the INVALID_PASSWORD audit and the catch-block audit, then Unauthorized. */
  lemma LoginBadPassword(t: Tables, ctx: Context, email: string, password: string, user: User)
    requires FindByEmail(t.users, email) == Some(user)
    requires !PasswordStale(user, ctx.now) && !ctx.hasher.compare(password, user.password)
    requires AuditStoreUp(ctx)
    ensures var s := LoginSpec(t, ctx, email, password);
      && s.result == Err(UnauthorizedError("Invalid email or password"))
      && |Appended(t, s.tables)| == 2
      && Appended(t, s.tables)[0].entry.actorId == Some(user.id)
      && Appended(t, s.tables)[0].entry.metadata.value["reason"] == Text("INVALID_PASSWORD")
  {
  }

  /** The right password within thirty days: one success audit and the stored user, unchanged. */
  lemma LoginSucceeds(t: Tables, ctx: Context, email: string, password: string, user: User, salt: nat)
    requires FindByEmail(t.users, email) == Some(user)
    requires !PasswordStale(user, ctx.now)
    requires Primitives.Sound(ctx.hasher) && user.password == ctx.hasher.hash(password, salt)
    ensures var s := LoginSpec(t, ctx, email, password);
      && s.result == Ok(user)
      && (AuditStoreUp(ctx) ==> Appended(t, s.tables) == [Row(ctx, LoginAudit(ctx, user, email))])
  {
  }

  /** Whether the audit store is up changes neither the result of a reset request nor any table but the audit log. */
  lemma RequestIgnoresAuditStore(t: Tables, ctx: Context, f: AuditRow -> bool, email: string)
    ensures var c2 := ctx.(auditStored := f);
      && RequestPasswordResetSpec(t, ctx, email).result == RequestPasswordResetSpec(t, c2, email).result
      && RequestPasswordResetSpec(t, ctx, email).tables.(audit := []) == RequestPasswordResetSpec(t, c2, email).tables.(audit := [])
  {
    var c2 := ctx.(auditStored := f);
    match FindByEmail(t.users, email)
    case None =>
      assert ResetRequestUnknownAudit(c2, email) == ResetRequestUnknownAudit(ctx, email);
      LogEffect(t, ctx, ResetRequestUnknownAudit(ctx, email));
      LogEffect(t, c2, ResetRequestUnknownAudit(ctx, email));
    case Some(user) =>
      var t1 := PutResetCode(t, user.id, ResetCode(NewResetCode(ctx.draw), ctx.now + RESET_CODE_TTL_MS));
      assert ResetRequestAudit(c2, user, email) == ResetRequestAudit(ctx, user, email);
      LogEffect(t1, ctx, ResetRequestAudit(ctx, user, email));
      LogEffect(t1, c2, ResetRequestAudit(ctx, user, email));
  }

  /** Nor those of a reset. */
  lemma ResetIgnoresAuditStore(t: Tables, ctx: Context, f: AuditRow -> bool, email: string, code: string, password: string)
    ensures var c2 := ctx.(auditStored := f);
      && ResetPasswordSpec(t, ctx, email, code, password).result == ResetPasswordSpec(t, c2, email, code, password).result
      && ResetPasswordSpec(t, ctx, email, code, password).tables.(audit := [])
         == ResetPasswordSpec(t, c2, email, code, password).tables.(audit := [])
  {
    var c2 := ctx.(auditStored := f);
    match FindByEmail(t.users, email)
    case None =>
    case Some(user) =>
      if !CodeMatches(t, user.id, code) {
        assert InvalidCodeAudit(c2, user, email) == InvalidCodeAudit(ctx, user, email);
        LogEffect(t, ctx, InvalidCodeAudit(ctx, user, email));
        LogEffect(t, c2, InvalidCodeAudit(ctx, user, email));
      } else if t.resetCodes[user.id].expiresAt >= ctx.now {
        var t2 := DropResetCode(SetPassword(t, user.id, ctx.hasher.hash(password, ctx.salt)), user.id);
        assert ResetAudit(c2, user, email) == ResetAudit(ctx, user, email);
        LogEffect(t2, ctx, ResetAudit(ctx, user, email));
        LogEffect(t2, c2, ResetAudit(ctx, user, email));
      }
  }

  /** Nor the result of a login. */
  lemma LoginIgnoresAuditStore(t: Tables, ctx: Context, f: AuditRow -> bool, email: string, password: string)
    ensures LoginSpec(t, ctx, email, password).result == LoginSpec(t, ctx.(auditStored := f), email, password).result
  {
  }

  /**
   * As written, a reset leaves `passwordUpdatedAt` alone, so a user whose
   * password is stale stays locked out after resetting it: login with the
   * new password still demands a password change.
   */
  lemma StaleUserLockedOutAfterReset(t: Tables, ctx: Context, ctx2: Context, email: string, code: string,
                                      newPassword: string, user: User)
    requires FindByEmail(t.users, email) == Some(user)
    requires ResetPasswordSpec(t, ctx, email, code, newPassword).result.Ok?
    requires PasswordStale(user, ctx2.now)
    ensures LoginSpec(ResetPasswordSpec(t, ctx, email, code, newPassword).tables, ctx2, email, newPassword).result
         == Err(ChangePasswordError("Password change required. Please update your password."))
  {
    ResetFindsUser(t, ctx, email, code, newPassword, user);
  }

  /** The evidently intended reset: it also records when the password was changed. */
  function ResetPasswordStampedSpec(t: Tables, ctx: Context, email: string, code: string, newPassword: string): Step<string>
  {
    var s := ResetPasswordSpec(t, ctx, email, code, newPassword);
    match FindByEmail(t.users, email)
    case None => s
    case Some(user) =>
      if s.result.Ok? then s.(tables := s.tables.(users := WithPasswordTime(s.tables.users, user.id, ctx.now))) else s
  }

  function WithPasswordTime(users: seq<User>, id: UserId, now: nat): (r: seq<User>)
    ensures |r| == |users|
    ensures forall i :: 0 <= i < |users| ==>
      r[i] == if users[i].id == id then users[i].(passwordUpdatedAt := Some(now)) else users[i]
  {
    seq(|users|, i requires 0 <= i < |users| =>
      if users[i].id == id then users[i].(passwordUpdatedAt := Some(now)) else users[i])
  }

  lemma {:induction false} FindByEmailWithPasswordTime(users: seq<User>, email: string, id: UserId, now: nat)
    ensures FindByEmail(WithPasswordTime(users, id, now), email)
         == match FindByEmail(users, email)
            case None => None
            case Some(u) => Some(if u.id == id then u.(passwordUpdatedAt := Some(now)) else u)
  {
    if users != [] {
      var r := WithPasswordTime(users, id, now);
      assert r[1..] == WithPasswordTime(users[1..], id, now);
      FindByEmailWithPasswordTime(users[1..], email, id, now);
    }
  }

  /**
   * With the stamp, a stale user who resets the password can log in with
   * it for thirty days.
   */
  lemma StampedResetUnlocksLogin(t: Tables, ctx: Context, ctx2: Context, email: string, code: string, newPassword: string)
    requires ResetPasswordStampedSpec(t, ctx, email, code, newPassword).result.Ok?
    requires Primitives.Sound(ctx2.hasher) && ctx2.hasher == ctx.hasher
    requires ctx.now <= ctx2.now <= ctx.now + THIRTY_DAYS_MS
    ensures LoginSpec(ResetPasswordStampedSpec(t, ctx, email, code, newPassword).tables, ctx2, email, newPassword).result.Ok?
  {
    var user := FindByEmail(t.users, email).value;
    var h := ctx.hasher.hash(newPassword, ctx.salt);
    ResetFindsUser(t, ctx, email, code, newPassword, user);
    var s := ResetPasswordSpec(t, ctx, email, code, newPassword);
    var stamped := ResetPasswordStampedSpec(t, ctx, email, code, newPassword).tables;
    assert stamped.users == WithPasswordTime(s.tables.users, user.id, ctx.now);
    FindByEmailWithPasswordTime(s.tables.users, email, user.id, ctx.now);
    var after := user.(password := h).(passwordUpdatedAt := Some(ctx.now));
    assert FindByEmail(stamped.users, email) == Some(after);
    LoginSucceeds(stamped, ctx2, email, newPassword, after, ctx.salt);
  }
}
