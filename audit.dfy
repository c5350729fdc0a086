/**
 * The audit writer (backend/src/utils/audit.ts): it creates one audit
 * row and swallows a failure of the store, so it never throws to its
 * caller. Whether the store accepts the create is a parameter.
 */
module Audit {
  import opened Store

  /** The effect of `writeAuditLog` on the tables. */
  function Append(t: Tables, row: AuditRow, stored: bool): Tables
  {
    if stored then AddAuditRow(t, row) else t
  }

  /**
   * `writeAuditLog(log)`: the row is the entry with the store's timestamp
   * `now`; `stored` says whether `auditLog.create` succeeds. Either way the
   * call returns normally.
   */
  method WriteAuditLog(db: Database, log: AuditEntry, now: nat, stored: bool)
    modifies db
    ensures db.Snapshot() == Append(old(db.Snapshot()), AuditRow(log, now), stored)
  {
    if stored {
      db.CreateAuditRow(AuditRow(log, now));
    }
  }

  /**
   * A successful write adds exactly the given row at the end, a failed one
   * changes nothing, and no other table is touched either way.
   */
  lemma AppendEffect(t: Tables, row: AuditRow, stored: bool)
    ensures stored ==> Append(t, row, stored).audit == t.audit + [row]
    ensures !stored ==> Append(t, row, stored) == t
    ensures Append(t, row, stored).(audit := t.audit) == t
  {
  }

  /** Writes only append: every earlier row stays where it was. */
  lemma AppendOnly(t: Tables, row: AuditRow, stored: bool)
    ensures t.audit <= Append(t, row, stored).audit
    ensures |Append(t, row, stored).audit| <= |t.audit| + 1
  {
  }
}
