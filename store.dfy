/**
 * The persistent store behind the services (Prisma over the database),
 * as in-memory tables: users with unique e-mail addresses, password-reset
 * codes keyed by user, the append-only audit log, nurse-to-doctor
 * assignments, and patient records holding their notes and medications.
 *
 * `Tables` is the value of the whole store; `Database` is the store
 * object the services update one query at a time. Each of its methods is
 * one Prisma call and is specified by the pure operation on `Tables` of
 * the same meaning. Identifiers are drawn from a counter instead of the
 * store's generated ids.
 */
module Store {
  import opened Common

  type UserId = nat

  datatype Role = ADMIN | DOCTOR | NURSE | PATIENT

  /** The role as the store writes it, e.g. into `actorRole`. */
  function RoleName(r: Role): string
  {
    match r
    case ADMIN => "ADMIN"
    case DOCTOR => "DOCTOR"
    case NURSE => "NURSE"
    case PATIENT => "PATIENT"
  }

  /** `name` and `diagnosis` hold ciphertext; `email` is stored in plaintext. */
  datatype User = User(
    id: UserId,
    email: string,
    name: string,
    password: string,
    role: Role,
    passwordUpdatedAt: Option<nat>,
    diagnosis: Option<string>)

  datatype ResetCode = ResetCode(code: string, expiresAt: nat)

  datatype Assignment = Assignment(nurseId: UserId, doctorId: UserId)

  datatype NurseCheck = NurseCheck(id: nat, nurseId: UserId, checkedAt: nat)

  datatype Medication = Medication(id: nat, name: string, dosage: string, schedule: string, checks: seq<NurseCheck>)

  datatype DoctorNote = DoctorNote(id: nat, doctorId: UserId, note: string, createdAt: nat)

  datatype PatientRecord = PatientRecord(
    id: nat,
    patientId: UserId,
    doctorId: UserId,
    notes: seq<DoctorNote>,
    medications: seq<Medication>)

  /** A value of the audit `metadata` JSON object. */
  datatype MetaValue = Text(text: string) | Number(number: int) | Ref(ref: UserId)

  /** The object passed to `writeAuditLog`; absent optional keys are `None`. */
  datatype AuditEntry = AuditEntry(
    actorId: Option<UserId>,
    actorRole: Option<string>,
    action: string,
    targetType: Option<string>,
    targetId: Option<UserId>,
    success: bool,
    ip: Option<string>,
    userAgent: Option<string>,
    metadata: Option<map<string, MetaValue>>)

  /** A stored audit row: the entry and the timestamp the store gives it. */
  datatype AuditRow = AuditRow(entry: AuditEntry, timestamp: nat)

  datatype Tables = Tables(
    users: seq<User>,
    resetCodes: map<UserId, ResetCode>,
    audit: seq<AuditRow>,
    assignments: seq<Assignment>,
    records: seq<PatientRecord>,
    nextId: nat)

  /** `prisma.user.findUnique({ where: { email } })`. */
  function FindByEmail(users: seq<User>, email: string): (r: Option<User>)
    ensures r.Some? ==> r.value in users && r.value.email == email
    ensures r.None? <==> forall i :: 0 <= i < |users| ==> users[i].email != email
  {
    if users == [] then None
    else if users[0].email == email then Some(users[0])
    else FindByEmail(users[1..], email)
  }

  /** `prisma.user.findUnique({ where: { id } })`. */
  function FindById(users: seq<User>, id: UserId): (r: Option<User>)
    ensures r.Some? ==> r.value in users && r.value.id == id
    ensures r.None? <==> forall i :: 0 <= i < |users| ==> users[i].id != id
  {
    if users == [] then None
    else if users[0].id == id then Some(users[0])
    else FindById(users[1..], id)
  }

  /** A user's patient record (`user.patientRecord`, one per patient). */
  function RecordOf(records: seq<PatientRecord>, patientId: UserId): (r: Option<PatientRecord>)
    ensures r.Some? ==> r.value in records && r.value.patientId == patientId
    ensures r.None? <==> forall i :: 0 <= i < |records| ==> records[i].patientId != patientId
  {
    if records == [] then None
    else if records[0].patientId == patientId then Some(records[0])
    else RecordOf(records[1..], patientId)
  }

  /**
   * The user a foreign key refers to. The store's foreign keys guarantee
   * it exists; a dangling reference reads as a user with empty fields.
   */
  function UserOrBlank(users: seq<User>, id: UserId): User
  {
    match FindById(users, id)
    case Some(u) => u
    case None => User(id, "", "", "", PATIENT, None, None)
  }

  /** The store's integrity constraints that the services rely on. */
  predicate Valid(t: Tables)
  {
    && DistinctBy(t.users, UserIdOf)
    && DistinctBy(t.users, EmailOf)
    && (forall i :: 0 <= i < |t.users| ==> t.users[i].id < t.nextId)
    && DistinctBy(t.records, PatientOf)
    && (forall i :: 0 <= i < |t.records| ==> t.records[i].patientId < t.nextId)
  }

  function UserIdOf(u: User): UserId { u.id }

  function EmailOf(u: User): string { u.email }

  function PatientOf(r: PatientRecord): UserId { r.patientId }

  // Operations on the tables, one per store call.

  /** `user.create`: the new row gets the next identifier. */
  function AddUser(t: Tables, draft: User): (Tables, User)
  {
    var u := draft.(id := t.nextId);
    (t.(users := t.users + [u], nextId := t.nextId + 1), u)
  }

  /** `passwordResetCode.upsert({ where: { userId } })`. */
  function PutResetCode(t: Tables, userId: UserId, entry: ResetCode): Tables
  {
    t.(resetCodes := t.resetCodes[userId := entry])
  }

  /** `passwordResetCode.delete({ where: { userId } })`. */
  function DropResetCode(t: Tables, userId: UserId): Tables
  {
    t.(resetCodes := t.resetCodes - {userId})
  }

  function WithPassword(users: seq<User>, id: UserId, hash: string): (r: seq<User>)
    ensures |r| == |users|
    ensures forall i :: 0 <= i < |users| ==>
      r[i] == if users[i].id == id then users[i].(password := hash) else users[i]
  {
    seq(|users|, i requires 0 <= i < |users| => if users[i].id == id then users[i].(password := hash) else users[i])
  }

  /** `user.update({ where: { id }, data: { password } })`. */
  function SetPassword(t: Tables, id: UserId, hash: string): Tables
  {
    t.(users := WithPassword(t.users, id, hash))
  }

  /** `nurseAssignment.create`. */
  function AddAssignment(t: Tables, a: Assignment): Tables
  {
    t.(assignments := t.assignments + [a])
  }

  /** The rows a delete keeps: those not matching its `where`. */
  function AssignmentKept(doctorId: UserId): Assignment -> bool
  {
    (a: Assignment) => a.doctorId != doctorId
  }

  function RecordKept(doctorId: UserId): PatientRecord -> bool
  {
    (r: PatientRecord) => r.doctorId != doctorId
  }

  function UserKept(id: UserId): User -> bool
  {
    (u: User) => u.id != id
  }

  /** `nurseAssignment.deleteMany({ where: { doctorId } })`. */
  function DropAssignmentsOf(t: Tables, doctorId: UserId): Tables
  {
    t.(assignments := Filter(t.assignments, AssignmentKept(doctorId)))
  }

  /** `patientRecord.deleteMany({ where: { doctorId } })`, with the notes and medications inside them. */
  function DropRecordsOf(t: Tables, doctorId: UserId): Tables
  {
    t.(records := Filter(t.records, RecordKept(doctorId)))
  }

  /** `user.delete({ where: { id } })`. */
  function DropUser(t: Tables, id: UserId): Tables
  {
    t.(users := Filter(t.users, UserKept(id)))
  }

  /** A medication as given to a nested create: name, dosage and schedule. */
  datatype MedicationText = MedicationText(name: string, dosage: string, schedule: string)

  /**
   * `user.create` of a patient with a nested patient record, its notes and
   * its medications (no nurse checks yet), all created at `now`.
   */
  function AddPatient(t: Tables, draft: User, doctorId: UserId, notes: seq<string>,
                      meds: seq<MedicationText>, now: nat): (Tables, User, PatientRecord)
  {
    var u := draft.(id := t.nextId);
    var base := t.nextId + 2;
    var noteRows := seq(|notes|, i requires 0 <= i < |notes| => DoctorNote(base + i, doctorId, notes[i], now));
    var medRows := seq(|meds|, j requires 0 <= j < |meds| =>
      Medication(base + |notes| + j, meds[j].name, meds[j].dosage, meds[j].schedule, []));
    var rec := PatientRecord(t.nextId + 1, u.id, doctorId, noteRows, medRows);
    (t.(users := t.users + [u], records := t.records + [rec], nextId := base + |notes| + |meds|), u, rec)
  }

  /** `auditLog.create`. */
  function AddAuditRow(t: Tables, row: AuditRow): Tables
  {
    t.(audit := t.audit + [row])
  }

  /** Looking users up by e-mail sees through a password change. */
  lemma {:induction false} FindByEmailWithPassword(users: seq<User>, email: string, id: UserId, hash: string)
    ensures FindByEmail(WithPassword(users, id, hash), email)
         == match FindByEmail(users, email)
            case None => None
            case Some(u) => Some(if u.id == id then u.(password := hash) else u)
  {
    if users != [] {
      var r := WithPassword(users, id, hash);
      assert r[1..] == WithPassword(users[1..], id, hash);
      FindByEmailWithPassword(users[1..], email, id, hash);
    }
  }

  /** A user added under a free e-mail address is the one found by it. */
  lemma {:induction false} FindByEmailAppend(users: seq<User>, u: User)
    requires FindByEmail(users, u.email).None?
    ensures FindByEmail(users + [u], u.email) == Some(u)
  {
    if users != [] {
      assert (users + [u])[1..] == users[1..] + [u];
      FindByEmailAppend(users[1..], u);
    }
  }

  /** Creating a user with an e-mail address not yet taken keeps the store valid. */
  lemma AddUserValid(t: Tables, draft: User)
    requires Valid(t) && FindByEmail(t.users, draft.email).None?
    ensures Valid(AddUser(t, draft).0)
  {
  }

  /**
   * The nested create adds exactly one user and one record after the
   * existing rows: the record belongs to the new user and the doctor, and
   * holds one note per given text and one medication per given triple, in
   * order, with no nurse checks. No other table changes.
   */
  lemma AddPatientRows(t: Tables, draft: User, doctorId: UserId, notes: seq<string>, meds: seq<MedicationText>, now: nat)
    ensures var (t', u, rec) := AddPatient(t, draft, doctorId, notes, meds, now);
      && u == draft.(id := t.nextId)
      && t'.users == t.users + [u] && t'.records == t.records + [rec]
      && t'.resetCodes == t.resetCodes && t'.audit == t.audit && t'.assignments == t.assignments
      && rec.patientId == u.id && rec.doctorId == doctorId
      && |rec.notes| == |notes| && |rec.medications| == |meds|
      && (forall i :: 0 <= i < |notes| ==>
            rec.notes[i].note == notes[i] && rec.notes[i].doctorId == doctorId && rec.notes[i].createdAt == now)
      && (forall j :: 0 <= j < |meds| ==>
            && rec.medications[j].name == meds[j].name && rec.medications[j].dosage == meds[j].dosage
            && rec.medications[j].schedule == meds[j].schedule && rec.medications[j].checks == [])
  {
  }

  /** Creating a patient with a free e-mail address keeps the store valid: the new record's patient is new. */
  lemma AddPatientValid(t: Tables, draft: User, doctorId: UserId, notes: seq<string>, meds: seq<MedicationText>, now: nat)
    requires Valid(t) && FindByEmail(t.users, draft.email).None?
    ensures Valid(AddPatient(t, draft, doctorId, notes, meds, now).0)
  {
  }

  /** Deleting rows keeps the store valid. */
  lemma DropAssignmentsValid(t: Tables, doctorId: UserId)
    requires Valid(t)
    ensures Valid(DropAssignmentsOf(t, doctorId))
  {
  }

  lemma DropRecordsValid(t: Tables, doctorId: UserId)
    requires Valid(t)
    ensures Valid(DropRecordsOf(t, doctorId))
  {
    var r := DropRecordsOf(t, doctorId).records;
    FilterDistinct(t.records, RecordKept(doctorId), PatientOf);
    assert forall i :: 0 <= i < |r| ==> r[i] in t.records;
  }

  lemma DropUserValid(t: Tables, userId: UserId)
    requires Valid(t)
    ensures Valid(DropUser(t, userId))
  {
    var u := DropUser(t, userId).users;
    FilterDistinct(t.users, UserKept(userId), UserIdOf);
    FilterDistinct(t.users, UserKept(userId), EmailOf);
    assert forall i :: 0 <= i < |u| ==> u[i] in t.users;
  }

  /** The store object: one field per table. */
  class Database {
    var users: seq<User>
    var resetCodes: map<UserId, ResetCode>
    var auditLog: seq<AuditRow>
    var assignments: seq<Assignment>
    var records: seq<PatientRecord>
    var nextId: nat

    function Snapshot(): Tables
      reads this
    {
      Tables(users, resetCodes, auditLog, assignments, records, nextId)
    }

    constructor (t: Tables)
      ensures Snapshot() == t
    {
      users, resetCodes, auditLog := t.users, t.resetCodes, t.audit;
      assignments, records, nextId := t.assignments, t.records, t.nextId;
    }

    method CreateUser(draft: User) returns (created: User)
      modifies this
      ensures (Snapshot(), created) == AddUser(old(Snapshot()), draft)
    {
      created := draft.(id := nextId);
      users := users + [created];
      nextId := nextId + 1;
    }

    method UpsertResetCode(userId: UserId, entry: ResetCode)
      modifies this
      ensures Snapshot() == PutResetCode(old(Snapshot()), userId, entry)
    {
      resetCodes := resetCodes[userId := entry];
    }

    method DeleteResetCode(userId: UserId)
      modifies this
      ensures Snapshot() == DropResetCode(old(Snapshot()), userId)
    {
      resetCodes := resetCodes - {userId};
    }

    method UpdatePassword(id: UserId, hash: string)
      modifies this
      ensures Snapshot() == SetPassword(old(Snapshot()), id, hash)
    {
      users := WithPassword(users, id, hash);
    }

    method CreateAssignment(a: Assignment)
      modifies this
      ensures Snapshot() == AddAssignment(old(Snapshot()), a)
    {
      assignments := assignments + [a];
    }

    method DeleteAssignmentsOf(doctorId: UserId)
      modifies this
      ensures Snapshot() == DropAssignmentsOf(old(Snapshot()), doctorId)
    {
      assignments := Filter(assignments, AssignmentKept(doctorId));
    }

    method DeleteRecordsOf(doctorId: UserId)
      modifies this
      ensures Snapshot() == DropRecordsOf(old(Snapshot()), doctorId)
    {
      records := Filter(records, RecordKept(doctorId));
    }

    method DeleteUser(id: UserId)
      modifies this
      ensures Snapshot() == DropUser(old(Snapshot()), id)
    {
      users := Filter(users, UserKept(id));
    }

    method CreatePatient(draft: User, doctorId: UserId, notes: seq<string>, meds: seq<MedicationText>, now: nat)
      returns (created: User, rec: PatientRecord)
      modifies this
      ensures Snapshot() == AddPatient(old(Snapshot()), draft, doctorId, notes, meds, now).0
      ensures created == AddPatient(old(Snapshot()), draft, doctorId, notes, meds, now).1
      ensures rec == AddPatient(old(Snapshot()), draft, doctorId, notes, meds, now).2
    {
      var r := AddPatient(Snapshot(), draft, doctorId, notes, meds, now);
      created, rec := r.1, r.2;
      users, records, nextId := r.0.users, r.0.records, r.0.nextId;
    }

    method CreateAuditRow(row: AuditRow)
      modifies this
      ensures Snapshot() == AddAuditRow(old(Snapshot()), row)
    {
      auditLog := auditLog + [row];
    }
  }
}
