/**
 * What a service call sees besides the store: the clock, the client's
 * address and user agent, the field cipher, bcrypt, the nonces that
 * `crypto.randomBytes(12)` returns (the k-th `encrypt` of the call uses
 * `nonce(k)`), bcrypt's salt, the draw of `crypto.randomInt`, and whether
 * the store accepts each audit row. A service is specified by a `Step`:
 * the tables after the call and its result or the error it throws.
 */
module Env {
  import opened Common
  import opened Store
  import opened Errors
  import FieldCipher
  import Primitives
  import Audit

  datatype Context = Context(
    now: nat,
    ip: Option<string>,
    userAgent: Option<string>,
    cipher: FieldCipher.Cipher,
    hasher: Primitives.Hasher,
    nonce: nat -> FieldCipher.Iv,
    salt: nat,
    draw: nat,
    auditStored: AuditRow -> bool)

  datatype Step<+T> = Step(tables: Tables, result: Result<T, Error>)

  /** The k-th `encrypt(text)` of the call. */
  function Enc(ctx: Context, k: nat, text: string): string
  {
    FieldCipher.Encrypt(ctx.cipher, ctx.nonce(k), text)
  }

  /** `decrypt(s)`, with `Err` for the exception it throws. */
  function Dec(ctx: Context, s: Option<string>): Result<string, string>
  {
    FieldCipher.Decrypt(ctx.cipher, s)
  }

  /** Under a correct cipher `decrypt` undoes the k-th `encrypt`. */
  lemma DecEnc(ctx: Context, k: nat, text: string)
    requires FieldCipher.Correct(ctx.cipher.aead)
    ensures Dec(ctx, Some(Enc(ctx, k, text))) == Ok(text)
  {
    FieldCipher.DecryptEncrypt(ctx.cipher, ctx.nonce(k), text);
  }

  /** The object a service passes to `writeAuditLog`, with this call's ip and user agent. */
  function Entry(ctx: Context, actorId: Option<UserId>, actorRole: string, action: string, targetType: string,
                 targetId: Option<UserId>, success: bool, metadata: Option<map<string, MetaValue>>): AuditEntry
  {
    AuditEntry(actorId, Some(actorRole), action, Some(targetType), targetId, success, ctx.ip, ctx.userAgent, metadata)
  }

  /** `{ error: err.message }`, the metadata of the catch-block audits. */
  function ErrorMeta(message: string): Option<map<string, MetaValue>>
  {
    Some(map["error" := Text(message)])
  }

  /** `{ reason }`. */
  function ReasonMeta(reason: string): Option<map<string, MetaValue>>
  {
    Some(map["reason" := Text(reason)])
  }

  function Row(ctx: Context, e: AuditEntry): AuditRow
  {
    AuditRow(e, ctx.now)
  }

  /** `await writeAuditLog(e)` within a call. */
  function Log(t: Tables, ctx: Context, e: AuditEntry): Tables
  {
    Audit.Append(t, Row(ctx, e), ctx.auditStored(Row(ctx, e)))
  }

  method WriteLog(db: Database, ctx: Context, e: AuditEntry)
    modifies db
    ensures db.Snapshot() == Log(old(db.Snapshot()), ctx, e)
  {
    Audit.WriteAuditLog(db, e, ctx.now, ctx.auditStored(Row(ctx, e)));
  }

  /**
   * A try block's step followed by its catch block: on an error, the
   * catch block writes the audit `onError(err.message)` and rethrows.
   */
  function Caught<T>(s: Step<T>, ctx: Context, onError: string -> AuditEntry): (r: Step<T>)
    ensures r.result == s.result
    ensures s.result.Ok? ==> r == s
  {
    if s.result.Err? then Step(Log(s.tables, ctx, onError(s.result.error.message)), s.result) else s
  }

  /** The catch block after a try block that ended with `r`. */
  method CatchLog<T>(db: Database, ctx: Context, r: Result<T, Error>, onError: string -> AuditEntry)
    modifies db
    ensures db.Snapshot() == Caught(Step(old(db.Snapshot()), r), ctx, onError).tables
  {
    if r.Err? {
      WriteLog(db, ctx, onError(r.error.message));
    }
  }

  /** The store accepts every audit row. */
  ghost predicate AuditStoreUp(ctx: Context)
  {
    forall row: AuditRow :: ctx.auditStored(row)
  }

  /** The audit rows a call appended. */
  function Appended(before: Tables, after: Tables): seq<AuditRow>
    requires before.audit <= after.audit
  {
    after.audit[|before.audit|..]
  }

  /** A write appends its row when the store is up, and never touches another table. */
  lemma LogEffect(t: Tables, ctx: Context, e: AuditEntry)
    ensures AuditStoreUp(ctx) ==> Log(t, ctx, e).audit == t.audit + [Row(ctx, e)]
    ensures Log(t, ctx, e).(audit := t.audit) == t
    ensures t.audit <= Log(t, ctx, e).audit
  {
  }
}
