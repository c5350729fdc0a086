/**
 * The patient's own view (backend/src/services/patient.service.ts): the
 * records naming the patient, with the patient's name and diagnosis, the
 * doctor's name, the notes (newest first), the medications and their
 * nurse checks (newest first) decrypted; the doctor's e-mail address is
 * passed through as stored.
 *
 * The role gates throw without an audit; a `decrypt` that throws ends the
 * call before the single success audit.
 */
module PatientService {
  import opened Common
  import opened Store
  import opened Errors
  import opened Env
  import FieldCipher
  import DoctorService

  const PATIENT_NOT_FOUND: Error := NotFoundError("Patient not found")
  const FORBIDDEN: Error := UnauthorizedError("Forbidden")

  /** `patient: { id, name, diagnosis }` with both texts decrypted (an absent diagnosis decrypts to ""). */
  datatype PatientRef = PatientRef(id: UserId, name: string, diagnosis: string)

  /** `doctor: { id, name, email }` with the name decrypted. */
  datatype DoctorRef = DoctorRef(id: UserId, name: string, email: string)

  datatype RecordDetail = RecordDetail(
    id: nat,
    patient: PatientRef,
    doctor: DoctorRef,
    doctorNotes: seq<DoctorService.NoteView>,
    medications: seq<DoctorService.MedicationView>)

  function NoteTime(n: DoctorNote): int { n.createdAt }

  function CheckTime(c: NurseCheck): int { c.checkedAt }

  function NoteViewTime(n: DoctorService.NoteView): int { n.createdAt }

  function CheckViewTime(c: DoctorService.CheckView): int { c.checkedAt }

  function ForPatient(patientId: UserId): PatientRecord -> bool
  {
    (r: PatientRecord) => r.patientId == patientId
  }

  /** `findMany({ where: { patientId } })`, in store order. */
  function OwnRecords(t: Tables, patientId: UserId): seq<PatientRecord>
  {
    Filter(t.records, ForPatient(patientId))
  }

  /** A medication with its nurse checks ordered by `checkedAt: "desc"`, then decrypted. */
  function SortedMedicationOf(ctx: Context, t: Tables, m: Medication): Result<DoctorService.MedicationView, string>
  {
    DoctorService.MedicationViewOf(ctx, t, m.(checks := SortDescBy(m.checks, CheckTime)))
  }

  function SortedMedicationViewer(ctx: Context, t: Tables): Medication -> Result<DoctorService.MedicationView, string>
  {
    (m: Medication) => SortedMedicationOf(ctx, t, m)
  }

  /**
   * One record, decrypted in the object literal's order: patient name and
   * diagnosis, doctor name, the notes ordered by `createdAt: "desc"`, the
   * medications.
   */
  function DetailOf(ctx: Context, t: Tables, r: PatientRecord): Result<RecordDetail, string>
  {
    var patient, doctor := UserOrBlank(t.users, r.patientId), UserOrBlank(t.users, r.doctorId);
    var patientName :- Dec(ctx, Some(patient.name));
    var diagnosis :- Dec(ctx, patient.diagnosis);
    var doctorName :- Dec(ctx, Some(doctor.name));
    var notes :- MapResult(SortDescBy(r.notes, NoteTime), DoctorService.NoteViewer(ctx, t));
    var meds :- MapResult(r.medications, SortedMedicationViewer(ctx, t));
    Ok(RecordDetail(r.id, PatientRef(patient.id, patientName, diagnosis), DoctorRef(doctor.id, doctorName, doctor.email),
                    notes, meds))
  }

  function DetailViewer(ctx: Context, t: Tables): PatientRecord -> Result<RecordDetail, string>
  {
    (r: PatientRecord) => DetailOf(ctx, t, r)
  }

  /** The success audit; `recordCount` is the number of records found. */
  function RecordsAudit(ctx: Context, patientId: UserId, count: nat): AuditEntry
  {
    Entry(ctx, Some(patientId), "PATIENT", "GET_PATIENT_RECORDS", "PATIENT", Some(patientId), true,
          Some(map["recordCount" := Number(count)]))
  }

  function GetPatientRecordsSpec(t: Tables, ctx: Context, patientId: UserId): Step<seq<RecordDetail>>
  {
    match FindById(t.users, patientId)
    case None => Step(t, Err(PATIENT_NOT_FOUND))
    case Some(patient) =>
      if patient.role != PATIENT then Step(t, Err(FORBIDDEN))
      else
        var records := OwnRecords(t, patientId);
        match MapResult(records, DetailViewer(ctx, t))
        case Err(message) => Step(t, Err(CipherError(message)))
        case Ok(details) => Step(Log(t, ctx, RecordsAudit(ctx, patientId, |records|)), Ok(details))
  }

  method GetPatientRecords(db: Database, ctx: Context, patientId: UserId) returns (r: Result<seq<RecordDetail>, Error>)
    modifies db
    ensures db.Snapshot() == GetPatientRecordsSpec(old(db.Snapshot()), ctx, patientId).tables
    ensures r == GetPatientRecordsSpec(old(db.Snapshot()), ctx, patientId).result
  {
    var patient := FindById(db.users, patientId);
    if patient.None? {
      return Err(PATIENT_NOT_FOUND);
    }
    if patient.value.role != PATIENT {
      return Err(FORBIDDEN);
    }
    var t := db.Snapshot();
    var records := OwnRecords(t, patientId);
    var details := MapResult(records, DetailViewer(ctx, t));
    if details.Err? {
      return Err(CipherError(details.error));
    }
    WriteLog(db, ctx, RecordsAudit(ctx, patientId, |records|));
    r := Ok(details.value);
  }

  /** Neither gate writes anything: an unknown user gets NotFound, any other role Unauthorized. */
  lemma GetPatientRecordsGates(t: Tables, ctx: Context, patientId: UserId)
    ensures var s := GetPatientRecordsSpec(t, ctx, patientId);
      && (FindById(t.users, patientId).None? ==> s == Step(t, Err(NotFoundError("Patient not found"))))
      && (FindById(t.users, patientId).Some? && FindById(t.users, patientId).value.role != PATIENT ==>
            s == Step(t, Err(UnauthorizedError("Forbidden"))))
      && (s.tables != t ==>
            FindById(t.users, patientId).Some? && FindById(t.users, patientId).value.role == PATIENT && s.result.Ok?)
  {
  }

  /** The records returned are exactly the patient's own. */
  lemma OwnRecordsExactly(t: Tables, patientId: UserId)
    ensures forall r :: r in OwnRecords(t, patientId) <==> r in t.records && r.patientId == patientId
  {
    var rs := OwnRecords(t, patientId);
    forall r | r in rs ensures r in t.records && r.patientId == patientId {
      var i :| 0 <= i < |rs| && rs[i] == r;
      assert ForPatient(patientId)(rs[i]);
    }
    forall r | r in t.records && r.patientId == patientId ensures r in rs {
      var i :| 0 <= i < |t.records| && t.records[i] == r;
      assert ForPatient(patientId)(t.records[i]);
    }
  }

  /** Mapped notes keep the order of their `createdAt`s. */
  lemma {:induction false} NotesKeepOrder(ctx: Context, t: Tables, notes: seq<DoctorNote>)
    requires SortedDesc(notes, NoteTime)
    requires MapResult(notes, DoctorService.NoteViewer(ctx, t)).Ok?
    ensures var views := MapResult(notes, DoctorService.NoteViewer(ctx, t)).value;
      && SortedDesc(views, NoteViewTime)
      && forall k :: 0 <= k < |notes| ==> views[k].id == notes[k].id && views[k].createdAt == notes[k].createdAt
  {
    var f := DoctorService.NoteViewer(ctx, t);
    var views := MapResult(notes, f).value;
    forall k | 0 <= k < |notes| ensures views[k].id == notes[k].id && views[k].createdAt == notes[k].createdAt {
      assert f(notes[k]) == DoctorService.NoteViewOf(ctx, t, notes[k]);
      DoctorService.NoteViewKeeps(ctx, t, notes[k]);
    }
    forall i, j | 0 <= i < j < |views| ensures NoteViewTime(views[i]) >= NoteViewTime(views[j]) {
      assert NoteTime(notes[i]) >= NoteTime(notes[j]);
    }
  }

  /**
   * A record's notes come back newest first: every note of the record,
   * each once, ordered by descending `createdAt`.
   */
  lemma DetailNotesNewestFirst(ctx: Context, t: Tables, r: PatientRecord)
    requires DetailOf(ctx, t, r).Ok?
    ensures var v, sorted := DetailOf(ctx, t, r).value, SortDescBy(r.notes, NoteTime);
      && SortedDesc(v.doctorNotes, NoteViewTime)
      && multiset(sorted) == multiset(r.notes)
      && |v.doctorNotes| == |r.notes|
      && forall k :: 0 <= k < |sorted| ==> v.doctorNotes[k].id == sorted[k].id
  {
    var sorted := SortDescBy(r.notes, NoteTime);
    SortDescByCorrect(r.notes, NoteTime);
    DetailNotes(ctx, t, r);
    NotesKeepOrder(ctx, t, sorted);
  }

  /** A detail's notes are the record's notes, sorted, each viewed. */
  lemma DetailNotes(ctx: Context, t: Tables, r: PatientRecord)
    requires DetailOf(ctx, t, r).Ok?
    ensures var notes := MapResult(SortDescBy(r.notes, NoteTime), DoctorService.NoteViewer(ctx, t));
      notes.Ok? && DetailOf(ctx, t, r).value.doctorNotes == notes.value
  {
  }

  /** A viewed medication's checks are its checks, sorted, each viewed. */
  lemma MedicationChecks(ctx: Context, t: Tables, m: Medication)
    requires SortedMedicationOf(ctx, t, m).Ok?
    ensures var checks := MapResult(SortDescBy(m.checks, CheckTime), DoctorService.CheckViewer(ctx, t));
      && checks.Ok? && SortedMedicationOf(ctx, t, m).value.nurseChecks == checks.value
      && SortedMedicationOf(ctx, t, m).value.id == m.id
  {
  }

  /** A medication's checks come back newest first, every one of them, each naming its nurse. */
  lemma MedicationChecksNewestFirst(ctx: Context, t: Tables, m: Medication)
    requires SortedMedicationOf(ctx, t, m).Ok?
    ensures var v, sorted := SortedMedicationOf(ctx, t, m).value, SortDescBy(m.checks, CheckTime);
      && v.id == m.id
      && SortedDesc(v.nurseChecks, CheckViewTime)
      && multiset(sorted) == multiset(m.checks)
      && |v.nurseChecks| == |m.checks|
      && forall k :: 0 <= k < |sorted| ==>
           v.nurseChecks[k].id == sorted[k].id && v.nurseChecks[k].nurse.id == sorted[k].nurseId
  {
    var sorted := SortDescBy(m.checks, CheckTime);
    SortDescByCorrect(m.checks, CheckTime);
    MedicationChecks(ctx, t, m);
    var f := DoctorService.CheckViewer(ctx, t);
    var views := MapResult(sorted, f).value;
    forall k | 0 <= k < |sorted|
      ensures views[k].id == sorted[k].id && views[k].nurse.id == sorted[k].nurseId
      && views[k].checkedAt == sorted[k].checkedAt
    {
      assert f(sorted[k]) == DoctorService.CheckViewOf(ctx, t, sorted[k]);
    }
    forall i, j | 0 <= i < j < |views| ensures CheckViewTime(views[i]) >= CheckViewTime(views[j]) {
      assert CheckTime(sorted[i]) >= CheckTime(sorted[j]);
    }
  }

  /**
   * A record's detail names the record's patient and doctor, shows the
   * doctor's e-mail address as stored, and holds decryptions of the
   * patient's name and diagnosis and the doctor's name; an absent
   * diagnosis shows as "".
   */
  lemma DetailDecrypts(ctx: Context, t: Tables, r: PatientRecord)
    requires DetailOf(ctx, t, r).Ok?
    ensures var v := DetailOf(ctx, t, r).value;
      var patient, doctor := UserOrBlank(t.users, r.patientId), UserOrBlank(t.users, r.doctorId);
      && v.id == r.id && v.patient.id == r.patientId && v.doctor.id == r.doctorId
      && v.doctor.email == doctor.email
      && Dec(ctx, Some(patient.name)) == Ok(v.patient.name)
      && Dec(ctx, patient.diagnosis) == Ok(v.patient.diagnosis)
      && (patient.diagnosis.None? ==> v.patient.diagnosis == "")
      && Dec(ctx, Some(doctor.name)) == Ok(v.doctor.name)
      && |v.medications| == |r.medications|
  {
    FieldCipher.DecryptAbsent(ctx.cipher);
  }

  /** Under a correct cipher a name and diagnosis stored encrypted come back in plaintext. */
  lemma DetailShowsPlaintext(ctx: Context, t: Tables, r: PatientRecord, k1: nat, name: string, k2: nat, diagnosis: string)
    requires FieldCipher.Correct(ctx.cipher.aead)
    requires UserOrBlank(t.users, r.patientId).name == Enc(ctx, k1, name)
    requires UserOrBlank(t.users, r.patientId).diagnosis == Some(Enc(ctx, k2, diagnosis))
    requires DetailOf(ctx, t, r).Ok?
    ensures DetailOf(ctx, t, r).value.patient == PatientRef(r.patientId, name, diagnosis)
  {
    DecEnc(ctx, k1, name);
    DecEnc(ctx, k2, diagnosis);
    DetailPatient(ctx, t, r);
  }

  /** A detail's patient is the record's patient, with name and diagnosis decrypted. */
  lemma DetailPatient(ctx: Context, t: Tables, r: PatientRecord)
    requires DetailOf(ctx, t, r).Ok?
    ensures var patient := UserOrBlank(t.users, r.patientId);
      var name, diagnosis := Dec(ctx, Some(patient.name)), Dec(ctx, patient.diagnosis);
      && name.Ok? && diagnosis.Ok?
      && DetailOf(ctx, t, r).value.patient == PatientRef(patient.id, name.value, diagnosis.value)
  {
  }

  /** A patient's call: the details and one audit, or a cipher error and nothing written. */
  lemma GetPatientRecordsOutcome(t: Tables, ctx: Context, patientId: UserId)
    requires FindById(t.users, patientId).Some? && FindById(t.users, patientId).value.role == PATIENT
    ensures var rs := OwnRecords(t, patientId);
      var details := MapResult(rs, DetailViewer(ctx, t));
      GetPatientRecordsSpec(t, ctx, patientId)
      == if details.Ok? then Step(Log(t, ctx, RecordsAudit(ctx, patientId, |rs|)), Ok(details.value))
         else Step(t, Err(CipherError(details.error)))
  {
  }

  /**
   * A patient's call changes nothing but the audit log: one detail per own
   * record, in store order (what a detail holds is `DetailDecrypts`'s), and one success audit whose `recordCount`
   * counts them; a `decrypt` that throws ends the call with nothing written.
   */
  lemma GetPatientRecordsLists(t: Tables, ctx: Context, patientId: UserId)
    requires FindById(t.users, patientId).Some? && FindById(t.users, patientId).value.role == PATIENT
    ensures var s := GetPatientRecordsSpec(t, ctx, patientId);
      var rs := OwnRecords(t, patientId);
      && s.tables.(audit := t.audit) == t
      && (s.result.Ok? ==>
            && |s.result.value| == |rs|
            && (forall i :: 0 <= i < |rs| ==>
                  rs[i].patientId == patientId && DetailOf(ctx, t, rs[i]) == Ok(s.result.value[i]))
            && (AuditStoreUp(ctx) ==> Appended(t, s.tables) == [Row(ctx, RecordsAudit(ctx, patientId, |rs|))]))
      && (s.result.Err? ==> s.result.error.CipherError? && s.tables == t)
  {
    var rs := OwnRecords(t, patientId);
    var f := DetailViewer(ctx, t);
    var details := MapResult(rs, f);
    GetPatientRecordsOutcome(t, ctx, patientId);
    if details.Ok? {
      LogEffect(t, ctx, RecordsAudit(ctx, patientId, |rs|));
      forall i | 0 <= i < |rs| ensures rs[i].patientId == patientId && DetailOf(ctx, t, rs[i]) == Ok(details.value[i]) {
        assert f(rs[i]) == DetailOf(ctx, t, rs[i]);
        assert ForPatient(patientId)(rs[i]);
      }
    }
  }
}
