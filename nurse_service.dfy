/**
 * The nurse's service (backend/src/services/nurse.service.ts): the patient
 * records held by the doctors the nurse is assigned to, each with the
 * nurse's own medication checks reduced to a flag.
 *
 * The service joins three tables and copies the selected columns as the
 * store holds them; it has no catch block, and only the role gates and
 * the success write the audit log.
 */
module NurseService {
  import opened Common
  import opened Store
  import opened Errors
  import opened Env
  import FieldCipher
  import DoctorService

  const NURSE_NOT_FOUND: Error := NotFoundError("Nurse not found")
  const NOT_A_NURSE: Error := UnauthorizedError("Only nurses can access assigned patients")

  /** A medication as the nurse sees it: `checked` says whether this nurse has checked it. */
  datatype MedicationCheckView = MedicationCheckView(id: nat, name: string, dosage: string, schedule: string, checked: bool)

  datatype AssignedPatientView = AssignedPatientView(
    recordId: nat,
    patientId: UserId,
    patientName: string,
    patientEmail: string,
    diagnosis: Option<string>,
    doctorId: UserId,
    doctorName: string,
    medications: seq<MedicationCheckView>)

  /** The audit of a `FETCH_ASSIGNED_PATIENTS` attempt by `nurseId`. */
  function AssignedAudit(ctx: Context, nurseId: UserId, actorRole: string, success: bool,
                         metadata: Option<map<string, MetaValue>>): AuditEntry
  {
    Entry(ctx, Some(nurseId), actorRole, "FETCH_ASSIGNED_PATIENTS", "PATIENT", None, success, metadata)
  }

  function OfNurse(nurseId: UserId): Assignment -> bool
  {
    (a: Assignment) => a.nurseId == nurseId
  }

  /** `assignedDoctors.map((a) => a.doctorId)`: the doctors of the nurse's assignments, in store order. */
  function AssignedDoctorIds(t: Tables, nurseId: UserId): (ids: seq<UserId>)
    ensures forall d :: d in ids <==> exists a :: a in t.assignments && a.nurseId == nurseId && a.doctorId == d
  {
    var mine := Filter(t.assignments, OfNurse(nurseId));
    var ids := seq(|mine|, i requires 0 <= i < |mine| => mine[i].doctorId);
    assert forall d :: d in ids ==> exists a :: a in t.assignments && a.nurseId == nurseId && a.doctorId == d by {
      forall d | d in ids ensures exists a :: a in t.assignments && a.nurseId == nurseId && a.doctorId == d {
        var i :| 0 <= i < |ids| && ids[i] == d;
        assert OfNurse(nurseId)(mine[i]);
      }
    }
    assert forall d :: (exists a :: a in t.assignments && a.nurseId == nurseId && a.doctorId == d) ==> d in ids by {
      forall d | exists a :: a in t.assignments && a.nurseId == nurseId && a.doctorId == d ensures d in ids {
        var a :| a in t.assignments && a.nurseId == nurseId && a.doctorId == d;
        var k :| 0 <= k < |t.assignments| && t.assignments[k] == a;
        assert OfNurse(nurseId)(t.assignments[k]);
        var i :| 0 <= i < |mine| && mine[i] == a;
        assert ids[i] == d;
      }
    }
    ids
  }

  function UnderDoctors(ids: seq<UserId>): PatientRecord -> bool
  {
    (r: PatientRecord) => r.doctorId in ids
  }

  /** `{ where: { doctorId: { in: doctorIds } } }`: the records of the nurse's doctors, in store order. */
  function AssignedRecords(t: Tables, nurseId: UserId): seq<PatientRecord>
  {
    Filter(t.records, UnderDoctors(AssignedDoctorIds(t, nurseId)))
  }

  function ByNurse(nurseId: UserId): NurseCheck -> bool
  {
    (c: NurseCheck) => c.nurseId == nurseId
  }

  /** A medication with only this nurse's checks selected, flagged `length > 0`. */
  function MedicationCheckOf(nurseId: UserId, m: Medication): MedicationCheckView
  {
    MedicationCheckView(m.id, m.name, m.dosage, m.schedule, |Filter(m.checks, ByNurse(nurseId))| > 0)
  }

  /** One record, with the patient's and the doctor's columns copied as stored. */
  function AssignedViewOf(t: Tables, nurseId: UserId, r: PatientRecord): AssignedPatientView
  {
    var patient, doctor := UserOrBlank(t.users, r.patientId), UserOrBlank(t.users, r.doctorId);
    AssignedPatientView(r.id, patient.id, patient.name, patient.email, patient.diagnosis, doctor.id, doctor.name,
                        seq(|r.medications|, j requires 0 <= j < |r.medications| => MedicationCheckOf(nurseId, r.medications[j])))
  }

  function AssignedViews(t: Tables, nurseId: UserId): seq<AssignedPatientView>
  {
    var records := AssignedRecords(t, nurseId);
    seq(|records|, i requires 0 <= i < |records| => AssignedViewOf(t, nurseId, records[i]))
  }

  function GetAssignedPatientsSpec(t: Tables, ctx: Context, nurseId: UserId): Step<seq<AssignedPatientView>>
  {
    match FindById(t.users, nurseId)
    case None =>
      Step(Log(t, ctx, AssignedAudit(ctx, nurseId, "UNKNOWN", false, ReasonMeta("NURSE_NOT_FOUND"))), Err(NURSE_NOT_FOUND))
    case Some(nurse) =>
      if nurse.role != NURSE then
        Step(Log(t, ctx, AssignedAudit(ctx, nurseId, RoleName(nurse.role), false, ReasonMeta("USER_NOT_NURSE"))),
             Err(NOT_A_NURSE))
      else
        var views := AssignedViews(t, nurseId);
        Step(Log(t, ctx, AssignedAudit(ctx, nurseId, "NURSE", true, Some(map["count" := Number(|views|)]))), Ok(views))
  }

  method GetAssignedPatients(db: Database, ctx: Context, nurseId: UserId) returns (r: Result<seq<AssignedPatientView>, Error>)
    modifies db
    ensures db.Snapshot() == GetAssignedPatientsSpec(old(db.Snapshot()), ctx, nurseId).tables
    ensures r == GetAssignedPatientsSpec(old(db.Snapshot()), ctx, nurseId).result
  {
    var nurse := FindById(db.users, nurseId);
    if nurse.None? {
      WriteLog(db, ctx, AssignedAudit(ctx, nurseId, "UNKNOWN", false, ReasonMeta("NURSE_NOT_FOUND")));
      return Err(NURSE_NOT_FOUND);
    }
    if nurse.value.role != NURSE {
      WriteLog(db, ctx, AssignedAudit(ctx, nurseId, RoleName(nurse.value.role), false, ReasonMeta("USER_NOT_NURSE")));
      return Err(NOT_A_NURSE);
    }
    var views := AssignedViews(db.Snapshot(), nurseId);
    WriteLog(db, ctx, AssignedAudit(ctx, nurseId, "NURSE", true, Some(map["count" := Number(|views|)])));
    r := Ok(views);
  }

  /** An unknown caller: NotFound, and one failure audit with role UNKNOWN and reason NURSE_NOT_FOUND. */
  lemma GetAssignedPatientsUnknown(t: Tables, ctx: Context, nurseId: UserId)
    requires FindById(t.users, nurseId).None?
    ensures var s := GetAssignedPatientsSpec(t, ctx, nurseId);
      && s.result == Err(NotFoundError("Nurse not found"))
      && s.tables.(audit := t.audit) == t
      && (AuditStoreUp(ctx) ==>
            Appended(t, s.tables) == [Row(ctx, AssignedAudit(ctx, nurseId, "UNKNOWN", false, ReasonMeta("NURSE_NOT_FOUND")))])
  {
    LogEffect(t, ctx, AssignedAudit(ctx, nurseId, "UNKNOWN", false, ReasonMeta("NURSE_NOT_FOUND")));
  }

  /** A caller who is not a nurse: Unauthorized, and one failure audit carrying the caller's actual role. */
  lemma GetAssignedPatientsNotNurse(t: Tables, ctx: Context, nurseId: UserId)
    requires FindById(t.users, nurseId).Some? && FindById(t.users, nurseId).value.role != NURSE
    ensures var s := GetAssignedPatientsSpec(t, ctx, nurseId);
      var role := RoleName(FindById(t.users, nurseId).value.role);
      && s.result == Err(UnauthorizedError("Only nurses can access assigned patients"))
      && s.tables.(audit := t.audit) == t
      && role != "NURSE"
      && (AuditStoreUp(ctx) ==>
            Appended(t, s.tables) == [Row(ctx, AssignedAudit(ctx, nurseId, role, false, ReasonMeta("USER_NOT_NURSE")))])
  {
    var role := RoleName(FindById(t.users, nurseId).value.role);
    LogEffect(t, ctx, AssignedAudit(ctx, nurseId, role, false, ReasonMeta("USER_NOT_NURSE")));
  }

  /** The records listed are exactly those held by a doctor the nurse is assigned to. */
  lemma AssignedRecordsExactly(t: Tables, nurseId: UserId)
    ensures forall r :: r in AssignedRecords(t, nurseId) <==>
      r in t.records && exists a :: a in t.assignments && a.nurseId == nurseId && a.doctorId == r.doctorId
  {
    var ids := AssignedDoctorIds(t, nurseId);
    var rs := AssignedRecords(t, nurseId);
    forall r | r in rs
      ensures r in t.records && exists a :: a in t.assignments && a.nurseId == nurseId && a.doctorId == r.doctorId
    {
      var i :| 0 <= i < |rs| && rs[i] == r;
      assert UnderDoctors(ids)(rs[i]);
    }
    forall r | r in t.records && exists a :: a in t.assignments && a.nurseId == nurseId && a.doctorId == r.doctorId
      ensures r in rs
    {
      var i :| 0 <= i < |t.records| && t.records[i] == r;
      assert UnderDoctors(ids)(t.records[i]);
    }
  }

  /** A medication is flagged checked exactly when this nurse has checked it at least once; its texts are copied. */
  lemma CheckedExactly(nurseId: UserId, m: Medication)
    ensures var v := MedicationCheckOf(nurseId, m);
      && (v.checked <==> exists c :: c in m.checks && c.nurseId == nurseId)
      && v.id == m.id && v.name == m.name && v.dosage == m.dosage && v.schedule == m.schedule
  {
    var mine := Filter(m.checks, ByNurse(nurseId));
    if exists c :: c in m.checks && c.nurseId == nurseId {
      var c :| c in m.checks && c.nurseId == nurseId;
      var k :| 0 <= k < |m.checks| && m.checks[k] == c;
      assert ByNurse(nurseId)(m.checks[k]);
    }
    if |mine| > 0 {
      assert ByNurse(nurseId)(mine[0]);
    }
  }

  /**
   * A nurse's listing changes nothing but the audit log: one view per
   * listed record, in store order, holding the record's patient, doctor
   * and medications with every column as stored (no `decrypt`), and one
   * success audit counting the views.
   */
  lemma GetAssignedPatientsLists(t: Tables, ctx: Context, nurseId: UserId)
    requires FindById(t.users, nurseId).Some? && FindById(t.users, nurseId).value.role == NURSE
    ensures var s := GetAssignedPatientsSpec(t, ctx, nurseId);
      var rs := AssignedRecords(t, nurseId);
      && s.tables.(audit := t.audit) == t
      && s.result.Ok? && |s.result.value| == |rs|
      && (forall i :: 0 <= i < |rs| ==>
            var v, r := s.result.value[i], rs[i];
            var patient, doctor := UserOrBlank(t.users, r.patientId), UserOrBlank(t.users, r.doctorId);
            && v.recordId == r.id && v.patientId == r.patientId && v.doctorId == r.doctorId
            && v.patientName == patient.name && v.patientEmail == patient.email && v.diagnosis == patient.diagnosis
            && v.doctorName == doctor.name
            && |v.medications| == |r.medications|
            && forall j :: 0 <= j < |r.medications| ==> v.medications[j] == MedicationCheckOf(nurseId, r.medications[j]))
      && (AuditStoreUp(ctx) ==>
            Appended(t, s.tables) == [Row(ctx, AssignedAudit(ctx, nurseId, "NURSE", true, Some(map["count" := Number(|rs|)])))])
  {
    var rs := AssignedRecords(t, nurseId);
    LogEffect(t, ctx, AssignedAudit(ctx, nurseId, "NURSE", true, Some(map["count" := Number(|rs|)])));
  }

  /**
   * As written, a patient name stored encrypted reaches the nurse as the
   * ciphertext: whatever the name, the listing never shows it in plaintext
   * unless it contains a colon.
   */
  lemma ListingShowsCiphertext(t: Tables, ctx: Context, nurseId: UserId, r: PatientRecord, k: nat, name: string)
    requires FieldCipher.Correct(ctx.cipher.aead)
    requires UserOrBlank(t.users, r.patientId).name == Enc(ctx, k, name)
    requires ':' !in name
    ensures AssignedViewOf(t, nurseId, r).patientName != name
  {
    FieldCipher.EncryptHasColon(ctx.cipher, ctx.nonce(k), name);
  }

  // The listing with the encrypted columns decrypted, as the doctor's and the patient's views do

  /** A medication with name, dosage and schedule decrypted, in that order. */
  function DecryptedMedicationOf(ctx: Context, nurseId: UserId, m: Medication): Result<MedicationCheckView, string>
  {
    var name :- Dec(ctx, Some(m.name));
    var dosage :- Dec(ctx, Some(m.dosage));
    var schedule :- Dec(ctx, Some(m.schedule));
    Ok(MedicationCheckView(m.id, name, dosage, schedule, MedicationCheckOf(nurseId, m).checked))
  }

  function DecryptedMedicationViewer(ctx: Context, nurseId: UserId): Medication -> Result<MedicationCheckView, string>
  {
    (m: Medication) => DecryptedMedicationOf(ctx, nurseId, m)
  }

  /** One record with the patient's name and diagnosis, the doctor's name and the medication texts decrypted. */
  function DecryptedViewOf(ctx: Context, t: Tables, nurseId: UserId, r: PatientRecord): Result<AssignedPatientView, string>
  {
    var patient, doctor := UserOrBlank(t.users, r.patientId), UserOrBlank(t.users, r.doctorId);
    var patientName :- Dec(ctx, Some(patient.name));
    var diagnosis :- DoctorService.DiagnosisView(ctx, patient.diagnosis);
    var doctorName :- Dec(ctx, Some(doctor.name));
    var meds :- MapResult(r.medications, DecryptedMedicationViewer(ctx, nurseId));
    Ok(AssignedPatientView(r.id, patient.id, patientName, patient.email, diagnosis, doctor.id, doctorName, meds))
  }

  function DecryptedViewer(ctx: Context, t: Tables, nurseId: UserId): PatientRecord -> Result<AssignedPatientView, string>
  {
    (r: PatientRecord) => DecryptedViewOf(ctx, t, nurseId, r)
  }

  /** The corrected listing: a `decrypt` that throws ends the call with no audit, as in the doctor's listing. */
  function GetAssignedPatientsCorrectedSpec(t: Tables, ctx: Context, nurseId: UserId): Step<seq<AssignedPatientView>>
  {
    match FindById(t.users, nurseId)
    case None =>
      Step(Log(t, ctx, AssignedAudit(ctx, nurseId, "UNKNOWN", false, ReasonMeta("NURSE_NOT_FOUND"))), Err(NURSE_NOT_FOUND))
    case Some(nurse) =>
      if nurse.role != NURSE then
        Step(Log(t, ctx, AssignedAudit(ctx, nurseId, RoleName(nurse.role), false, ReasonMeta("USER_NOT_NURSE"))),
             Err(NOT_A_NURSE))
      else
        match MapResult(AssignedRecords(t, nurseId), DecryptedViewer(ctx, t, nurseId))
        case Err(message) => Step(t, Err(CipherError(message)))
        case Ok(views) =>
          Step(Log(t, ctx, AssignedAudit(ctx, nurseId, "NURSE", true, Some(map["count" := Number(|views|)]))), Ok(views))
  }

  /** Under a correct cipher a name stored as the encryption of `name` reaches the nurse as `name`. */
  lemma DecryptedViewShowsPlaintext(ctx: Context, t: Tables, nurseId: UserId, r: PatientRecord, k: nat, name: string)
    requires FieldCipher.Correct(ctx.cipher.aead)
    requires UserOrBlank(t.users, r.patientId).name == Enc(ctx, k, name)
    requires DecryptedViewOf(ctx, t, nurseId, r).Ok?
    ensures DecryptedViewOf(ctx, t, nurseId, r).value.patientName == name
  {
    DecEnc(ctx, k, name);
  }

  /** Apart from the decrypted texts, the corrected view is the one as written. */
  lemma DecryptedViewKeeps(ctx: Context, t: Tables, nurseId: UserId, r: PatientRecord)
    requires DecryptedViewOf(ctx, t, nurseId, r).Ok?
    ensures var v, w := DecryptedViewOf(ctx, t, nurseId, r).value, AssignedViewOf(t, nurseId, r);
      && v.recordId == w.recordId && v.patientId == w.patientId && v.patientEmail == w.patientEmail
      && v.doctorId == w.doctorId && |v.medications| == |w.medications|
      && forall j :: 0 <= j < |v.medications| ==> v.medications[j].checked == w.medications[j].checked
  {
    var f := DecryptedMedicationViewer(ctx, nurseId);
    var meds := DecryptedViewMedications(ctx, t, nurseId, r);
    forall j | 0 <= j < |r.medications|
      ensures meds[j].checked == MedicationCheckOf(nurseId, r.medications[j]).checked
    {
      assert f(r.medications[j]) == DecryptedMedicationOf(ctx, nurseId, r.medications[j]);
      DecryptedMedicationKeepsCheck(ctx, nurseId, r.medications[j]);
    }
  }

  /** The medications of a corrected view are the record's medications, each decrypted. */
  lemma DecryptedViewMedications(ctx: Context, t: Tables, nurseId: UserId, r: PatientRecord) returns (meds: seq<MedicationCheckView>)
    requires DecryptedViewOf(ctx, t, nurseId, r).Ok?
    ensures MapResult(r.medications, DecryptedMedicationViewer(ctx, nurseId)) == Ok(meds)
    ensures var v, w := DecryptedViewOf(ctx, t, nurseId, r).value, AssignedViewOf(t, nurseId, r);
      && v.medications == meds
      && v.recordId == w.recordId && v.patientId == w.patientId && v.patientEmail == w.patientEmail
      && v.doctorId == w.doctorId
  {
    meds := MapResult(r.medications, DecryptedMedicationViewer(ctx, nurseId)).value;
  }

  lemma DecryptedMedicationKeepsCheck(ctx: Context, nurseId: UserId, m: Medication)
    ensures DecryptedMedicationOf(ctx, nurseId, m).Ok? ==>
      DecryptedMedicationOf(ctx, nurseId, m).value.checked == MedicationCheckOf(nurseId, m).checked
  {
  }

  /** The corrected listing lists the same records as the one as written, in the same order. */
  lemma CorrectedListingSameRecords(t: Tables, ctx: Context, nurseId: UserId)
    requires FindById(t.users, nurseId).Some? && FindById(t.users, nurseId).value.role == NURSE
    ensures var s, w := GetAssignedPatientsCorrectedSpec(t, ctx, nurseId), GetAssignedPatientsSpec(t, ctx, nurseId);
      s.result.Ok? ==>
        && |s.result.value| == |w.result.value|
        && forall i :: 0 <= i < |s.result.value| ==> s.result.value[i].recordId == w.result.value[i].recordId
  {
    var rs := AssignedRecords(t, nurseId);
    var f := DecryptedViewer(ctx, t, nurseId);
    var views := MapResult(rs, f);
    if views.Ok? {
      forall i | 0 <= i < |rs| ensures views.value[i].recordId == rs[i].id {
        assert f(rs[i]) == DecryptedViewOf(ctx, t, nurseId, rs[i]);
        DecryptedViewKeepsId(ctx, t, nurseId, rs[i]);
      }
    }
  }

  /**
   * The corrected listing writes the same audit as the one as written when
   * it succeeds; when a `decrypt` throws it writes nothing.
   */
  lemma CorrectedListingAudits(t: Tables, ctx: Context, nurseId: UserId)
    requires FindById(t.users, nurseId).Some? && FindById(t.users, nurseId).value.role == NURSE
    ensures var s, w := GetAssignedPatientsCorrectedSpec(t, ctx, nurseId), GetAssignedPatientsSpec(t, ctx, nurseId);
      && (s.result.Ok? ==> s.tables == w.tables)
      && (s.result.Err? ==> s.tables == t && s.result.error.CipherError?)
  {
  }

  lemma DecryptedViewKeepsId(ctx: Context, t: Tables, nurseId: UserId, r: PatientRecord)
    ensures DecryptedViewOf(ctx, t, nurseId, r).Ok? ==> DecryptedViewOf(ctx, t, nurseId, r).value.recordId == r.id
  {
  }
}
