/**
 * The doctor's services (backend/src/services/doctor.service.ts): listing
 * the patients whose record the doctor holds, with every stored ciphertext
 * passed through `decrypt`, and creating a patient together with the
 * record, its notes and its medications.
 *
 * Neither service has a catch block that audits: the listing's role gates
 * audit before they throw, a failing `decrypt` in the listing throws out
 * of the service with no audit, and the creation's catch block only maps
 * the store's unique-e-mail error to a conflict.
 */
module DoctorService {
  import opened Common
  import opened Store
  import opened Errors
  import opened Env
  import FieldCipher
  import Primitives

  const DOCTOR_NOT_FOUND: Error := NotFoundError("Doctor not found")
  const NOT_A_DOCTOR_LISTING: Error := UnauthorizedError("Only doctors can view patients")
  const NOT_A_DOCTOR_CREATING: Error := UnauthorizedError("Only doctors can create patients")
  const PATIENT_EMAIL_TAKEN: Error := ConflictError("A patient with this email already exists")

  /** What the store throws when a create violates the unique index on `email`. */
  const UNIQUE_EMAIL: Error := PrismaError("P2002", ["email"], "Unique constraint failed on the fields: (`email`)")

  // The decrypted record views (also used by the patient's own view)

  /** A selected relation `{ id, name }` with the name decrypted. */
  datatype Person = Person(id: UserId, name: string)

  datatype NoteView = NoteView(id: nat, note: string, createdAt: nat, doctor: Person)

  datatype CheckView = CheckView(id: nat, checkedAt: nat, nurse: Person)

  datatype MedicationView = MedicationView(id: nat, name: string, dosage: string, schedule: string,
                                           nurseChecks: seq<CheckView>)

  /** The user a foreign key names, as `{ id, name: decrypt(name) }`. */
  function PersonOf(ctx: Context, t: Tables, id: UserId): Result<Person, string>
  {
    var name :- Dec(ctx, Some(UserOrBlank(t.users, id).name));
    Ok(Person(id, name))
  }

  /** A note with its text and its doctor's name decrypted, in that order. */
  function NoteViewOf(ctx: Context, t: Tables, n: DoctorNote): Result<NoteView, string>
  {
    var note :- Dec(ctx, Some(n.note));
    var doctor :- PersonOf(ctx, t, n.doctorId);
    Ok(NoteView(n.id, note, n.createdAt, doctor))
  }

  function NoteViewer(ctx: Context, t: Tables): DoctorNote -> Result<NoteView, string>
  {
    (n: DoctorNote) => NoteViewOf(ctx, t, n)
  }

  function CheckViewOf(ctx: Context, t: Tables, c: NurseCheck): Result<CheckView, string>
  {
    var nurse :- PersonOf(ctx, t, c.nurseId);
    Ok(CheckView(c.id, c.checkedAt, nurse))
  }

  function CheckViewer(ctx: Context, t: Tables): NurseCheck -> Result<CheckView, string>
  {
    (c: NurseCheck) => CheckViewOf(ctx, t, c)
  }

  /** A medication with name, dosage, schedule and each checking nurse's name decrypted, in that order. */
  function MedicationViewOf(ctx: Context, t: Tables, m: Medication): Result<MedicationView, string>
  {
    var name :- Dec(ctx, Some(m.name));
    var dosage :- Dec(ctx, Some(m.dosage));
    var schedule :- Dec(ctx, Some(m.schedule));
    var checks :- MapResult(m.checks, CheckViewer(ctx, t));
    Ok(MedicationView(m.id, name, dosage, schedule, checks))
  }

  function MedicationViewer(ctx: Context, t: Tables): Medication -> Result<MedicationView, string>
  {
    (m: Medication) => MedicationViewOf(ctx, t, m)
  }

  /** A decrypted note keeps the note's identity, date and author. */
  lemma NoteViewKeeps(ctx: Context, t: Tables, n: DoctorNote)
    ensures NoteViewOf(ctx, t, n).Ok? <==> Dec(ctx, Some(n.note)).Ok? && PersonOf(ctx, t, n.doctorId).Ok?
    ensures NoteViewOf(ctx, t, n).Ok? ==>
      var v := NoteViewOf(ctx, t, n).value;
      v.id == n.id && v.createdAt == n.createdAt && v.doctor.id == n.doctorId
        && Ok(v.note) == Dec(ctx, Some(n.note))
  {
  }

  // getDoctorPatientsService

  datatype RecordView = RecordView(id: nat, doctorNotes: seq<NoteView>, medications: seq<MedicationView>)

  datatype PatientView = PatientView(id: UserId, name: string, email: string, diagnosis: Option<string>,
                                     patientRecord: RecordView)

  /** The audit of a `FETCH_PATIENTS` attempt by `doctorId`. */
  function FetchAudit(ctx: Context, doctorId: UserId, actorRole: string, success: bool,
                      metadata: Option<map<string, MetaValue>>): AuditEntry
  {
    Entry(ctx, Some(doctorId), actorRole, "FETCH_PATIENTS", "PATIENT", None, success, metadata)
  }

  /** `{ role: "PATIENT", patientRecord: { is: { doctorId } } }`. */
  function PatientOfDoctor(t: Tables, doctorId: UserId): User -> bool
  {
    (u: User) => u.role == PATIENT && RecordOf(t.records, u.id).Some? && RecordOf(t.records, u.id).value.doctorId == doctorId
  }

  function PatientsOf(t: Tables, doctorId: UserId): seq<User>
  {
    Filter(t.users, PatientOfDoctor(t, doctorId))
  }

  /** The patient's record; a listed patient always has one. */
  function RecordOrBlank(t: Tables, patientId: UserId): PatientRecord
  {
    match RecordOf(t.records, patientId)
    case Some(r) => r
    case None => PatientRecord(0, patientId, 0, [], [])
  }

  /** `p.diagnosis ? decrypt(p.diagnosis) : null`: a missing or empty diagnosis is null. */
  function DiagnosisView(ctx: Context, diagnosis: Option<string>): Result<Option<string>, string>
  {
    if diagnosis.None? || diagnosis.value == "" then Ok(None)
    else
      var plain :- Dec(ctx, diagnosis);
      Ok(Some(plain))
  }

  /**
   * A listed patient: name, e-mail, diagnosis, then the record's notes and
   * medications; `decryptEmail` is the choice of passing the stored
   * e-mail through `decrypt` (true as written).
   */
  function PatientViewOf(ctx: Context, t: Tables, p: User, decryptEmail: bool): Result<PatientView, string>
  {
    var name :- Dec(ctx, Some(p.name));
    var email :- if decryptEmail then Dec(ctx, Some(p.email)) else Ok(p.email);
    var diagnosis :- DiagnosisView(ctx, p.diagnosis);
    var rec := RecordOrBlank(t, p.id);
    var notes :- MapResult(rec.notes, NoteViewer(ctx, t));
    var meds :- MapResult(rec.medications, MedicationViewer(ctx, t));
    Ok(PatientView(p.id, name, email, diagnosis, RecordView(rec.id, notes, meds)))
  }

  function PatientViewer(ctx: Context, t: Tables, decryptEmail: bool): User -> Result<PatientView, string>
  {
    (p: User) => PatientViewOf(ctx, t, p, decryptEmail)
  }

  function ListPatientsSpec(t: Tables, ctx: Context, doctorId: UserId, decryptEmail: bool): Step<seq<PatientView>>
  {
    match FindById(t.users, doctorId)
    case None =>
      Step(Log(t, ctx, FetchAudit(ctx, doctorId, "UNKNOWN", false, ReasonMeta("DOCTOR_NOT_FOUND"))), Err(DOCTOR_NOT_FOUND))
    case Some(doctor) =>
      if doctor.role != DOCTOR then
        Step(Log(t, ctx, FetchAudit(ctx, doctorId, RoleName(doctor.role), false, ReasonMeta("USER_NOT_DOCTOR"))),
             Err(NOT_A_DOCTOR_LISTING))
      else
        match MapResult(PatientsOf(t, doctorId), PatientViewer(ctx, t, decryptEmail))
        case Err(message) => Step(t, Err(CipherError(message)))
        case Ok(views) =>
          Step(Log(t, ctx, FetchAudit(ctx, doctorId, "DOCTOR", true, Some(map["count" := Number(|views|)]))), Ok(views))
  }

  function GetDoctorPatientsSpec(t: Tables, ctx: Context, doctorId: UserId): Step<seq<PatientView>>
  {
    ListPatientsSpec(t, ctx, doctorId, true)
  }

  method GetDoctorPatients(db: Database, ctx: Context, doctorId: UserId) returns (r: Result<seq<PatientView>, Error>)
    modifies db
    ensures db.Snapshot() == GetDoctorPatientsSpec(old(db.Snapshot()), ctx, doctorId).tables
    ensures r == GetDoctorPatientsSpec(old(db.Snapshot()), ctx, doctorId).result
  {
    var doctor := FindById(db.users, doctorId);
    if doctor.None? {
      WriteLog(db, ctx, FetchAudit(ctx, doctorId, "UNKNOWN", false, ReasonMeta("DOCTOR_NOT_FOUND")));
      return Err(DOCTOR_NOT_FOUND);
    }
    if doctor.value.role != DOCTOR {
      WriteLog(db, ctx, FetchAudit(ctx, doctorId, RoleName(doctor.value.role), false, ReasonMeta("USER_NOT_DOCTOR")));
      return Err(NOT_A_DOCTOR_LISTING);
    }
    var t := db.Snapshot();
    var decrypted := MapResult(PatientsOf(t, doctorId), PatientViewer(ctx, t, true));
    if decrypted.Err? {
      return Err(CipherError(decrypted.error));
    }
    WriteLog(db, ctx, FetchAudit(ctx, doctorId, "DOCTOR", true, Some(map["count" := Number(|decrypted.value|)])));
    r := Ok(decrypted.value);
  }

  /** An unknown caller: NotFound, and one failure audit with role UNKNOWN and reason DOCTOR_NOT_FOUND. */
  lemma GetDoctorPatientsUnknown(t: Tables, ctx: Context, doctorId: UserId)
    requires FindById(t.users, doctorId).None?
    ensures var s := GetDoctorPatientsSpec(t, ctx, doctorId);
      && s.result == Err(NotFoundError("Doctor not found"))
      && s.tables.(audit := t.audit) == t
      && (AuditStoreUp(ctx) ==>
            Appended(t, s.tables) == [Row(ctx, FetchAudit(ctx, doctorId, "UNKNOWN", false, ReasonMeta("DOCTOR_NOT_FOUND")))])
  {
    LogEffect(t, ctx, FetchAudit(ctx, doctorId, "UNKNOWN", false, ReasonMeta("DOCTOR_NOT_FOUND")));
  }

  /** A caller who is not a doctor: Unauthorized, and one failure audit carrying the caller's actual role. */
  lemma GetDoctorPatientsNotDoctor(t: Tables, ctx: Context, doctorId: UserId)
    requires FindById(t.users, doctorId).Some? && FindById(t.users, doctorId).value.role != DOCTOR
    ensures var s := GetDoctorPatientsSpec(t, ctx, doctorId);
      var role := RoleName(FindById(t.users, doctorId).value.role);
      && s.result == Err(UnauthorizedError("Only doctors can view patients"))
      && s.tables.(audit := t.audit) == t
      && role != "DOCTOR"
      && (AuditStoreUp(ctx) ==>
            Appended(t, s.tables) == [Row(ctx, FetchAudit(ctx, doctorId, role, false, ReasonMeta("USER_NOT_DOCTOR")))])
  {
    var role := RoleName(FindById(t.users, doctorId).value.role);
    LogEffect(t, ctx, FetchAudit(ctx, doctorId, role, false, ReasonMeta("USER_NOT_DOCTOR")));
  }

  /** The patients listed to a doctor are exactly the patients whose record names that doctor. */
  lemma PatientsOfExactly(t: Tables, doctorId: UserId)
    ensures forall u :: u in PatientsOf(t, doctorId) <==>
      u in t.users && u.role == PATIENT && RecordOf(t.records, u.id).Some?
      && RecordOf(t.records, u.id).value.doctorId == doctorId
  {
    var ps := PatientsOf(t, doctorId);
    forall u | u in ps
      ensures u in t.users && u.role == PATIENT && RecordOf(t.records, u.id).Some?
        && RecordOf(t.records, u.id).value.doctorId == doctorId
    {
      var i :| 0 <= i < |ps| && ps[i] == u;
      assert PatientOfDoctor(t, doctorId)(ps[i]);
    }
    forall u | u in t.users && u.role == PATIENT && RecordOf(t.records, u.id).Some?
        && RecordOf(t.records, u.id).value.doctorId == doctorId
      ensures u in ps
    {
      var i :| 0 <= i < |t.users| && t.users[i] == u;
      assert PatientOfDoctor(t, doctorId)(t.users[i]);
    }
  }

  /** A listed patient's view keeps the patient's identity and record; the diagnosis is null exactly when missing or empty. */
  lemma PatientViewKeeps(ctx: Context, t: Tables, p: User, decryptEmail: bool)
    requires PatientViewOf(ctx, t, p, decryptEmail).Ok?
    ensures var v := PatientViewOf(ctx, t, p, decryptEmail).value;
      && v.id == p.id
      && v.patientRecord.id == RecordOrBlank(t, p.id).id
      && |v.patientRecord.doctorNotes| == |RecordOrBlank(t, p.id).notes|
      && |v.patientRecord.medications| == |RecordOrBlank(t, p.id).medications|
      && (!decryptEmail ==> v.email == p.email)
      && (v.diagnosis.None? <==> p.diagnosis.None? || p.diagnosis.value == "")
      && (v.diagnosis.Some? ==> Dec(ctx, p.diagnosis) == Ok(v.diagnosis.value))
  {
  }

  /** Listing to a doctor: the patients' views and one counting audit, or a cipher error and nothing written. */
  lemma ListPatientsOutcome(t: Tables, ctx: Context, doctorId: UserId, decryptEmail: bool)
    requires FindById(t.users, doctorId).Some? && FindById(t.users, doctorId).value.role == DOCTOR
    ensures var views := MapResult(PatientsOf(t, doctorId), PatientViewer(ctx, t, decryptEmail));
      ListPatientsSpec(t, ctx, doctorId, decryptEmail)
      == if views.Ok? then
           Step(Log(t, ctx, FetchAudit(ctx, doctorId, "DOCTOR", true, Some(map["count" := Number(|views.value|)]))),
                Ok(views.value))
         else Step(t, Err(CipherError(views.error)))
  {
  }

  /**
   * A doctor's listing changes nothing but the audit log. It holds one
   * view per listed patient, in store order, each with the patient's own
   * record; its single success audit counts them. A `decrypt` that throws
   * ends the call with no audit at all.
   */
  lemma GetDoctorPatientsLists(t: Tables, ctx: Context, doctorId: UserId)
    requires FindById(t.users, doctorId).Some? && FindById(t.users, doctorId).value.role == DOCTOR
    ensures var s := GetDoctorPatientsSpec(t, ctx, doctorId);
      var ps := PatientsOf(t, doctorId);
      && s.tables.(audit := t.audit) == t
      && (s.result.Ok? ==>
            && |s.result.value| == |ps|
            && (forall i :: 0 <= i < |ps| ==>
                  && s.result.value[i].id == ps[i].id
                  && RecordOf(t.records, ps[i].id).Some?
                  && s.result.value[i].patientRecord.id == RecordOf(t.records, ps[i].id).value.id)
            && (AuditStoreUp(ctx) ==>
                  Appended(t, s.tables)
                  == [Row(ctx, FetchAudit(ctx, doctorId, "DOCTOR", true, Some(map["count" := Number(|ps|)])))]))
      && (s.result.Err? ==> s.result.error.CipherError? && s.tables == t)
  {
    var ps := PatientsOf(t, doctorId);
    var f := PatientViewer(ctx, t, true);
    var views := MapResult(ps, f);
    ListPatientsOutcome(t, ctx, doctorId, true);
    if views.Ok? {
      LogEffect(t, ctx, FetchAudit(ctx, doctorId, "DOCTOR", true, Some(map["count" := Number(|ps|)])));
      forall i | 0 <= i < |ps|
        ensures views.value[i].id == ps[i].id && RecordOf(t.records, ps[i].id).Some?
          && views.value[i].patientRecord.id == RecordOf(t.records, ps[i].id).value.id
      {
        assert PatientOfDoctor(t, doctorId)(ps[i]);
        assert f(ps[i]) == PatientViewOf(ctx, t, ps[i], true);
        PatientViewKeeps(ctx, t, ps[i], true);
      }
    }
  }

  /**
   * As written, the patient's e-mail address, stored in plaintext, goes
   * through `decrypt`: an address without a colon lists as "".
   */
  lemma ListingBlanksPatientEmail(ctx: Context, t: Tables, p: User)
    requires ':' !in p.email
    requires PatientViewOf(ctx, t, p, true).Ok?
    ensures PatientViewOf(ctx, t, p, true).value.email == ""
  {
    FieldCipher.DecryptPlaintext(ctx.cipher, p.email);
  }

  /** The listing with the stored e-mail address passed through as it is. */
  function GetDoctorPatientsCorrectedSpec(t: Tables, ctx: Context, doctorId: UserId): Step<seq<PatientView>>
  {
    ListPatientsSpec(t, ctx, doctorId, false)
  }

  /** In the corrected listing every patient shows the address stored for them. */
  lemma CorrectedListingKeepsPatientEmail(t: Tables, ctx: Context, doctorId: UserId)
    ensures var s := GetDoctorPatientsCorrectedSpec(t, ctx, doctorId);
      s.result.Ok? ==>
        var ps := PatientsOf(t, doctorId);
        |s.result.value| == |ps| && forall i :: 0 <= i < |ps| ==> s.result.value[i].email == ps[i].email
  {
    if FindById(t.users, doctorId).Some? && FindById(t.users, doctorId).value.role == DOCTOR {
      ListPatientsOutcome(t, ctx, doctorId, false);
      var ps, f := PatientsOf(t, doctorId), PatientViewer(ctx, t, false);
      var views := MapResult(ps, f);
      if views.Ok? {
        forall i | 0 <= i < |ps| ensures views.value[i].email == ps[i].email {
          assert f(ps[i]) == PatientViewOf(ctx, t, ps[i], false);
          PatientViewKeeps(ctx, t, ps[i], false);
        }
      }
    }
  }

  // createPatientService

  /** The request body: notes are the `note` fields of `{ note }`, medications their three texts. */
  datatype CreatePatientInput = CreatePatientInput(
    name: string,
    email: string,
    password: string,
    diagnosis: Option<string>,
    notes: Option<seq<string>>,
    medications: Option<seq<MedicationText>>)

  /** The returned patient (decrypted name, e-mail and diagnosis) and the record created with them. */
  datatype CreatedPatient = CreatedPatient(patient: User, record: PatientRecord)

  /** `patientData.diagnosis ?? "Not provided"`. */
  function DiagnosisText(input: CreatePatientInput): string
  {
    match input.diagnosis
    case None => "Not provided"
    case Some(d) => d
  }

  /** `patientData.notes?.map(...) || []`. */
  function NotesOf(input: CreatePatientInput): seq<string>
  {
    match input.notes
    case None => []
    case Some(ns) => ns
  }

  function MedicationsOf(input: CreatePatientInput): seq<MedicationText>
  {
    match input.medications
    case None => []
    case Some(ms) => ms
  }

  /** The notes encrypted with the call's `encrypt`s number 2, 3, ... */
  function NoteCiphers(ctx: Context, notes: seq<string>): (r: seq<string>)
    ensures |r| == |notes|
  {
    seq(|notes|, i requires 0 <= i < |notes| => Enc(ctx, 2 + i, notes[i]))
  }

  /** The i-th note is encrypted by the `encrypt` number 2 + i. */
  lemma NoteCiphersAt(ctx: Context, notes: seq<string>)
    ensures forall i :: 0 <= i < |notes| ==> NoteCiphers(ctx, notes)[i] == Enc(ctx, 2 + i, notes[i])
  {
  }

  /** The medications encrypted field by field, the first one with the call's `encrypt` number `first`. */
  function MedicationCiphers(ctx: Context, first: nat, meds: seq<MedicationText>): (r: seq<MedicationText>)
    ensures |r| == |meds|
  {
    seq(|meds|, j requires 0 <= j < |meds| =>
      MedicationText(Enc(ctx, first + 3 * j, meds[j].name), Enc(ctx, first + 3 * j + 1, meds[j].dosage),
                     Enc(ctx, first + 3 * j + 2, meds[j].schedule)))
  }

  /** The j-th medication's fields are encrypted by the `encrypt`s number first + 3j, first + 3j + 1 and first + 3j + 2. */
  lemma MedicationCiphersAt(ctx: Context, first: nat, meds: seq<MedicationText>)
    ensures forall j :: 0 <= j < |meds| ==>
      MedicationCiphers(ctx, first, meds)[j]
      == MedicationText(Enc(ctx, first + 3 * j, meds[j].name), Enc(ctx, first + 3 * j + 1, meds[j].dosage),
                        Enc(ctx, first + 3 * j + 2, meds[j].schedule))
  {
  }

  /** The patient row: encrypted name and diagnosis, plaintext e-mail, bcrypt hash, password dated now. */
  function PatientDraft(ctx: Context, input: CreatePatientInput): User
  {
    User(0, input.email, Enc(ctx, 0, input.name), ctx.hasher.hash(input.password, ctx.salt), PATIENT,
         Some(ctx.now), Some(Enc(ctx, 1, DiagnosisText(input))))
  }

  /** The success audit; its metadata is the e-mail address encrypted once more. */
  function CreateAudit(ctx: Context, doctorId: UserId, patientId: UserId, emailCipher: string): AuditEntry
  {
    Entry(ctx, Some(doctorId), "DOCTOR", "CREATE_PATIENT", "USER", Some(patientId), true,
          Some(map["email" := Text(emailCipher)]))
  }

  /** The returned object: the created row with name, e-mail and diagnosis passed through `decrypt`. */
  function CreatedView(ctx: Context, u: User): Result<User, string>
  {
    var name :- Dec(ctx, Some(u.name));
    var email :- Dec(ctx, Some(u.email));
    var diagnosis :- Dec(ctx, u.diagnosis);
    Ok(u.(name := name, email := email, diagnosis := Some(diagnosis)))
  }

  /** The catch block: the unique-e-mail violation becomes a conflict, anything else is rethrown. */
  function CreatePatientCatch(e: Error): Error
  {
    if e.PrismaError? && e.code == "P2002" && "email" in e.target then PATIENT_EMAIL_TAKEN else e
  }

  /** The try block: the nested create (refused on a taken e-mail), the audit, then the decrypted copy. */
  function CreatePatientTry(t: Tables, ctx: Context, doctorId: UserId, input: CreatePatientInput): Step<CreatedPatient>
  {
    if FindByEmail(t.users, input.email).Some? then Step(t, Err(UNIQUE_EMAIL)) else InsertStep(t, ctx, doctorId, input)
  }

  /** The nested create and its audit, once the e-mail address is known to be free. */
  function InsertStep(t: Tables, ctx: Context, doctorId: UserId, input: CreatePatientInput): Step<CreatedPatient>
  {
    var notes, meds := NotesOf(input), MedicationsOf(input);
    var created := AddPatient(t, PatientDraft(ctx, input), doctorId, NoteCiphers(ctx, notes),
                              MedicationCiphers(ctx, 2 + |notes|, meds), ctx.now);
    AuditedCreate(created.0, ctx, doctorId, created.1, created.2, EmailCipher(ctx, input))
  }

  /** The e-mail address encrypted once more for the audit, by the `encrypt` after the medications'. */
  function EmailCipher(ctx: Context, input: CreatePatientInput): string
  {
    Enc(ctx, 2 + |NotesOf(input)| + 3 * |MedicationsOf(input)|, input.email)
  }

  /** After the nested create: the success audit, then the decrypted copy or the cipher's error. */
  function AuditedCreate(t: Tables, ctx: Context, doctorId: UserId, u: User, rec: PatientRecord,
                         emailCipher: string): Step<CreatedPatient>
  {
    Step(Log(t, ctx, CreateAudit(ctx, doctorId, u.id, emailCipher)),
         match CreatedView(ctx, u)
         case Err(message) => Err(CipherError(message))
         case Ok(v) => Ok(CreatedPatient(v, rec)))
  }

  function CreatePatientSpec(t: Tables, ctx: Context, doctorId: UserId, input: CreatePatientInput): Step<CreatedPatient>
  {
    match FindById(t.users, doctorId)
    case None => Step(t, Err(DOCTOR_NOT_FOUND))
    case Some(doctor) =>
      if doctor.role != DOCTOR then Step(t, Err(NOT_A_DOCTOR_CREATING))
      else
        var s := CreatePatientTry(t, ctx, doctorId, input);
        if s.result.Err? then Step(s.tables, Err(CreatePatientCatch(s.result.error))) else s
  }

  /** The try block of `createPatientService`. */
  method CreatePatientAttempt(db: Database, ctx: Context, doctorId: UserId, input: CreatePatientInput)
    returns (attempt: Result<CreatedPatient, Error>)
    modifies db
    ensures db.Snapshot() == CreatePatientTry(old(db.Snapshot()), ctx, doctorId, input).tables
    ensures attempt == CreatePatientTry(old(db.Snapshot()), ctx, doctorId, input).result
  {
    if FindByEmail(db.users, input.email).Some? {
      return Err(UNIQUE_EMAIL);
    }
    attempt := InsertPatient(db, ctx, doctorId, input);
  }

  /** `user.create` with the nested record, notes and medications, then the audit and the returned copy. */
  method InsertPatient(db: Database, ctx: Context, doctorId: UserId, input: CreatePatientInput)
    returns (attempt: Result<CreatedPatient, Error>)
    modifies db
    ensures db.Snapshot() == InsertStep(old(db.Snapshot()), ctx, doctorId, input).tables
    ensures attempt == InsertStep(old(db.Snapshot()), ctx, doctorId, input).result
  {
    var notes, meds := NotesOf(input), MedicationsOf(input);
    var draft, noteRows, medRows := PatientDraft(ctx, input), NoteCiphers(ctx, notes), MedicationCiphers(ctx, 2 + |notes|, meds);
    var emailCipher := EmailCipher(ctx, input);
    var patient, rec := db.CreatePatient(draft, doctorId, noteRows, medRows, ctx.now);
    attempt := FinishCreate(db, ctx, doctorId, patient, rec, emailCipher);
  }

  /** `writeAuditLog` of the success audit, then `decrypt` of the returned fields. */
  method FinishCreate(db: Database, ctx: Context, doctorId: UserId, u: User, rec: PatientRecord, emailCipher: string)
    returns (attempt: Result<CreatedPatient, Error>)
    modifies db
    ensures db.Snapshot() == AuditedCreate(old(db.Snapshot()), ctx, doctorId, u, rec, emailCipher).tables
    ensures attempt == AuditedCreate(old(db.Snapshot()), ctx, doctorId, u, rec, emailCipher).result
  {
    WriteLog(db, ctx, CreateAudit(ctx, doctorId, u.id, emailCipher));
    var view := CreatedView(ctx, u);
    attempt := if view.Err? then Err(CipherError(view.error)) else Ok(CreatedPatient(view.value, rec));
  }

  method CreatePatient(db: Database, ctx: Context, doctorId: UserId, input: CreatePatientInput)
    returns (r: Result<CreatedPatient, Error>)
    modifies db
    ensures db.Snapshot() == CreatePatientSpec(old(db.Snapshot()), ctx, doctorId, input).tables
    ensures r == CreatePatientSpec(old(db.Snapshot()), ctx, doctorId, input).result
  {
    var doctor := FindById(db.users, doctorId);
    if doctor.None? {
      return Err(DOCTOR_NOT_FOUND);
    }
    if doctor.value.role != DOCTOR {
      return Err(NOT_A_DOCTOR_CREATING);
    }
    var attempt := CreatePatientAttempt(db, ctx, doctorId, input);
    r := if attempt.Err? then Err(CreatePatientCatch(attempt.error)) else attempt;
  }

  /** A missing caller or one who is not a doctor: the error, and nothing written, not even an audit. */
  lemma CreatePatientGates(t: Tables, ctx: Context, doctorId: UserId, input: CreatePatientInput)
    ensures FindById(t.users, doctorId).None? ==>
      CreatePatientSpec(t, ctx, doctorId, input) == Step(t, Err(NotFoundError("Doctor not found")))
    ensures FindById(t.users, doctorId).Some? && FindById(t.users, doctorId).value.role != DOCTOR ==>
      CreatePatientSpec(t, ctx, doctorId, input) == Step(t, Err(UnauthorizedError("Only doctors can create patients")))
  {
  }

  /** A taken e-mail address: the store's unique-index error comes back as a conflict, with nothing written. */
  lemma CreatePatientEmailTaken(t: Tables, ctx: Context, doctorId: UserId, input: CreatePatientInput)
    requires FindById(t.users, doctorId).Some? && FindById(t.users, doctorId).value.role == DOCTOR
    requires FindByEmail(t.users, input.email).Some?
    ensures CreatePatientSpec(t, ctx, doctorId, input)
         == Step(t, Err(ConflictError("A patient with this email already exists")))
  {
  }

  /** The try block with a free e-mail address: the nested create, its audit, then the decrypted copy or the cipher's error. */
  lemma CreatePatientTryOutcome(t: Tables, ctx: Context, doctorId: UserId, input: CreatePatientInput)
    requires FindByEmail(t.users, input.email).None?
    ensures var notes, meds := NotesOf(input), MedicationsOf(input);
      var created := AddPatient(t, PatientDraft(ctx, input), doctorId, NoteCiphers(ctx, notes),
                                MedicationCiphers(ctx, 2 + |notes|, meds), ctx.now);
      var s := CreatePatientTry(t, ctx, doctorId, input);
      && s.tables == Log(created.0, ctx, CreateAudit(ctx, doctorId, created.1.id, EmailCipher(ctx, input)))
      && s.result == match CreatedView(ctx, created.1)
                     case Err(message) => Err(CipherError(message))
                     case Ok(u) => Ok(CreatedPatient(u, created.2))
  {
  }

  /** With a doctor calling and a free e-mail address, the catch block rethrows whatever the try block throws. */
  lemma CreatePatientIsTry(t: Tables, ctx: Context, doctorId: UserId, input: CreatePatientInput)
    requires FindById(t.users, doctorId).Some? && FindById(t.users, doctorId).value.role == DOCTOR
    requires FindByEmail(t.users, input.email).None?
    ensures CreatePatientSpec(t, ctx, doctorId, input) == CreatePatientTry(t, ctx, doctorId, input)
    ensures CreatePatientTry(t, ctx, doctorId, input).result.Err? ==>
      CreatePatientTry(t, ctx, doctorId, input).result.error.CipherError?
  {
    CreatePatientTryOutcome(t, ctx, doctorId, input);
  }

  /**
   * A free e-mail address: exactly one user is added after the existing
   * ones, a patient with the next identifier, the e-mail as given, the
   * encrypted name and diagnosis, the bcrypt hash and a password dated now;
   * exactly one record is added after the existing ones, and no other table
   * but the audit log changes.
   */
  lemma CreatePatientStores(t: Tables, ctx: Context, doctorId: UserId, input: CreatePatientInput)
    requires FindById(t.users, doctorId).Some? && FindById(t.users, doctorId).value.role == DOCTOR
    requires FindByEmail(t.users, input.email).None?
    ensures var s := CreatePatientSpec(t, ctx, doctorId, input);
      && |s.tables.users| == |t.users| + 1 && s.tables.users[..|t.users|] == t.users
      && |s.tables.records| == |t.records| + 1 && s.tables.records[..|t.records|] == t.records
      && s.tables.assignments == t.assignments && s.tables.resetCodes == t.resetCodes
      && var u := s.tables.users[|t.users|];
      && u.id == t.nextId && u.role == PATIENT && u.email == input.email && u.passwordUpdatedAt == Some(ctx.now)
      && u.name == Enc(ctx, 0, input.name) && u.diagnosis == Some(Enc(ctx, 1, DiagnosisText(input)))
      && u.password == ctx.hasher.hash(input.password, ctx.salt)
  {
    CreatedRows(t, ctx, doctorId, input);
  }

  /**
   * Creating with a free e-mail address keeps the store valid and writes
   * one CREATE_PATIENT audit naming the new patient; the call returns the
   * created record, or rethrows as it is a `decrypt` that throws on the
   * way back, after the writes.
   */
  lemma CreatePatientEffects(t: Tables, ctx: Context, doctorId: UserId, input: CreatePatientInput)
    requires FindById(t.users, doctorId).Some? && FindById(t.users, doctorId).value.role == DOCTOR
    requires FindByEmail(t.users, input.email).None?
    ensures var s := CreatePatientSpec(t, ctx, doctorId, input);
      var notes, meds := NotesOf(input), MedicationsOf(input);
      && |s.tables.users| == |t.users| + 1 && |s.tables.records| == |t.records| + 1
      && (AuditStoreUp(ctx) ==>
            Appended(t, s.tables)
            == [Row(ctx, CreateAudit(ctx, doctorId, s.tables.users[|t.users|].id, EmailCipher(ctx, input)))])
      && (s.result.Ok? ==>
            s.result.value.record == s.tables.records[|t.records|]
            && s.result.value.patient.id == s.tables.users[|t.users|].id)
      && (s.result.Err? ==> s.result.error.CipherError?)
  {
    CreatedRows(t, ctx, doctorId, input);
    CreatePatientTryOutcome(t, ctx, doctorId, input);
    CreatePatientIsTry(t, ctx, doctorId, input);
  }

  /** A successful create keeps the store's key and reference invariants. */
  lemma CreatePatientKeepsValid(t: Tables, ctx: Context, doctorId: UserId, input: CreatePatientInput)
    requires FindById(t.users, doctorId).Some? && FindById(t.users, doctorId).value.role == DOCTOR
    requires FindByEmail(t.users, input.email).None?
    requires Valid(t)
    ensures Valid(CreatePatientSpec(t, ctx, doctorId, input).tables)
  {
    CreatedRows(t, ctx, doctorId, input);
    var notes, meds := NotesOf(input), MedicationsOf(input);
    AddPatientValid(t, PatientDraft(ctx, input), doctorId, NoteCiphers(ctx, notes),
                    MedicationCiphers(ctx, 2 + |notes|, meds), ctx.now);
  }

  /** The rows the nested create adds, named for the lemmas above. */
  lemma CreatedRows(t: Tables, ctx: Context, doctorId: UserId, input: CreatePatientInput)
    requires FindById(t.users, doctorId).Some? && FindById(t.users, doctorId).value.role == DOCTOR
    requires FindByEmail(t.users, input.email).None?
    ensures var notes, meds := NotesOf(input), MedicationsOf(input);
      var created := AddPatient(t, PatientDraft(ctx, input), doctorId, NoteCiphers(ctx, notes),
                                MedicationCiphers(ctx, 2 + |notes|, meds), ctx.now);
      var e := CreateAudit(ctx, doctorId, created.1.id, EmailCipher(ctx, input));
      var s := CreatePatientSpec(t, ctx, doctorId, input);
      && s.tables == Log(created.0, ctx, e)
      && s.tables.users == t.users + [created.1] && s.tables.records == t.records + [created.2]
      && created.2.patientId == created.1.id
      && (AuditStoreUp(ctx) ==> s.tables.audit == t.audit + [Row(ctx, e)])
      && s.tables.(audit := t.audit) == created.0
  {
    var notes, meds := NotesOf(input), MedicationsOf(input);
    var draft := PatientDraft(ctx, input);
    var noteRows, medRows := NoteCiphers(ctx, notes), MedicationCiphers(ctx, 2 + |notes|, meds);
    var created := AddPatient(t, draft, doctorId, noteRows, medRows, ctx.now);
    var e := CreateAudit(ctx, doctorId, created.1.id, EmailCipher(ctx, input));
    CreatePatientTryOutcome(t, ctx, doctorId, input);
    CreatePatientIsTry(t, ctx, doctorId, input);
    AddPatientRows(t, draft, doctorId, noteRows, medRows, ctx.now);
    LogEffect(created.0, ctx, e);
  }

  /**
   * The record created with the patient links the patient to the doctor
   * and holds one note per given note, in order, each encrypted as
   * `NoteCiphers` gives it (see `NoteCiphersAt`), written by the doctor now.
   */
  lemma CreatePatientRecord(t: Tables, ctx: Context, doctorId: UserId, input: CreatePatientInput)
    requires FindById(t.users, doctorId).Some? && FindById(t.users, doctorId).value.role == DOCTOR
    requires FindByEmail(t.users, input.email).None?
    ensures var s := CreatePatientSpec(t, ctx, doctorId, input);
      var notes := NotesOf(input);
      && |s.tables.records| == |t.records| + 1 && |s.tables.users| == |t.users| + 1
      && var rec := s.tables.records[|t.records|];
      && rec.patientId == s.tables.users[|t.users|].id && rec.doctorId == doctorId
      && |rec.notes| == |notes|
      && forall i :: 0 <= i < |notes| ==>
           rec.notes[i].note == NoteCiphers(ctx, notes)[i] && rec.notes[i].doctorId == doctorId
           && rec.notes[i].createdAt == ctx.now
  {
    var notes, meds := NotesOf(input), MedicationsOf(input);
    var noteRows, medRows := NoteCiphers(ctx, notes), MedicationCiphers(ctx, 2 + |notes|, meds);
    CreatedRows(t, ctx, doctorId, input);
    AddPatientRows(t, PatientDraft(ctx, input), doctorId, noteRows, medRows, ctx.now);
  }

  /**
   * The record holds one medication per given medication, in order, each
   * with the encrypted texts `MedicationCiphers` gives it (the `encrypt`s
   * after the notes', see `MedicationCiphersAt`) and no nurse check yet.
   */
  lemma CreatePatientMedications(t: Tables, ctx: Context, doctorId: UserId, input: CreatePatientInput)
    requires FindById(t.users, doctorId).Some? && FindById(t.users, doctorId).value.role == DOCTOR
    requires FindByEmail(t.users, input.email).None?
    ensures var s := CreatePatientSpec(t, ctx, doctorId, input);
      var notes, meds := NotesOf(input), MedicationsOf(input);
      var ciphers := MedicationCiphers(ctx, 2 + |notes|, meds);
      && |s.tables.records| == |t.records| + 1
      && var rec := s.tables.records[|t.records|];
      && |rec.medications| == |meds|
      && forall j :: 0 <= j < |meds| ==>
           && rec.medications[j].name == ciphers[j].name
           && rec.medications[j].dosage == ciphers[j].dosage
           && rec.medications[j].schedule == ciphers[j].schedule
           && rec.medications[j].checks == []
  {
    var notes, meds := NotesOf(input), MedicationsOf(input);
    var noteRows, medRows := NoteCiphers(ctx, notes), MedicationCiphers(ctx, 2 + |notes|, meds);
    CreatedRows(t, ctx, doctorId, input);
    AddPatientRows(t, PatientDraft(ctx, input), doctorId, noteRows, medRows, ctx.now);
  }

  /** Under a correct cipher every encrypted note decrypts back to the given one. */
  lemma NoteCiphersDecrypt(ctx: Context, notes: seq<string>)
    requires FieldCipher.Correct(ctx.cipher.aead)
    ensures forall i :: 0 <= i < |notes| ==> Dec(ctx, Some(NoteCiphers(ctx, notes)[i])) == Ok(notes[i])
  {
    var ciphers := NoteCiphers(ctx, notes);
    forall i | 0 <= i < |notes| ensures Dec(ctx, Some(ciphers[i])) == Ok(notes[i]) {
      DecEnc(ctx, 2 + i, notes[i]);
    }
  }

  /** Under a correct cipher every encrypted medication text decrypts back to the given one. */
  lemma MedicationCiphersDecrypt(ctx: Context, first: nat, meds: seq<MedicationText>)
    requires FieldCipher.Correct(ctx.cipher.aead)
    ensures forall j :: 0 <= j < |meds| ==>
      && Dec(ctx, Some(MedicationCiphers(ctx, first, meds)[j].name)) == Ok(meds[j].name)
      && Dec(ctx, Some(MedicationCiphers(ctx, first, meds)[j].dosage)) == Ok(meds[j].dosage)
      && Dec(ctx, Some(MedicationCiphers(ctx, first, meds)[j].schedule)) == Ok(meds[j].schedule)
  {
    var ciphers := MedicationCiphers(ctx, first, meds);
    MedicationCiphersAt(ctx, first, meds);
    forall j | 0 <= j < |meds|
      ensures && Dec(ctx, Some(ciphers[j].name)) == Ok(meds[j].name)
              && Dec(ctx, Some(ciphers[j].dosage)) == Ok(meds[j].dosage)
              && Dec(ctx, Some(ciphers[j].schedule)) == Ok(meds[j].schedule)
    {
      DecEnc(ctx, first + 3 * j, meds[j].name);
      DecEnc(ctx, first + 3 * j + 1, meds[j].dosage);
      DecEnc(ctx, first + 3 * j + 2, meds[j].schedule);
    }
  }

  /**
   * Under a correct cipher the stored name and diagnosis decrypt back to
   * the input's, an absent diagnosis to "Not provided".
   */
  lemma CreatePatientStoresPlaintext(t: Tables, ctx: Context, doctorId: UserId, input: CreatePatientInput)
    requires FindById(t.users, doctorId).Some? && FindById(t.users, doctorId).value.role == DOCTOR
    requires FindByEmail(t.users, input.email).None?
    requires FieldCipher.Correct(ctx.cipher.aead)
    ensures var s := CreatePatientSpec(t, ctx, doctorId, input);
      && |s.tables.users| == |t.users| + 1
      && var u := s.tables.users[|t.users|];
      && Dec(ctx, Some(u.name)) == Ok(input.name)
      && Dec(ctx, u.diagnosis) == Ok(DiagnosisText(input))
      && (input.diagnosis.None? ==> Dec(ctx, u.diagnosis) == Ok("Not provided"))
  {
    CreatePatientStores(t, ctx, doctorId, input);
    DecEnc(ctx, 0, input.name);
    DecEnc(ctx, 1, DiagnosisText(input));
  }

  /**
   * Under a correct cipher each stored note decrypts back to the given
   * one; absent notes create no rows.
   */
  lemma CreatePatientNotesRoundTrip(t: Tables, ctx: Context, doctorId: UserId, input: CreatePatientInput)
    requires FindById(t.users, doctorId).Some? && FindById(t.users, doctorId).value.role == DOCTOR
    requires FindByEmail(t.users, input.email).None?
    requires FieldCipher.Correct(ctx.cipher.aead)
    ensures var s := CreatePatientSpec(t, ctx, doctorId, input);
      var notes := NotesOf(input);
      && |s.tables.records| == |t.records| + 1
      && var rec := s.tables.records[|t.records|];
      && (input.notes.None? ==> rec.notes == [])
      && |rec.notes| == |notes|
      && forall i :: 0 <= i < |notes| ==> Dec(ctx, Some(rec.notes[i].note)) == Ok(notes[i])
  {
    var notes, meds := NotesOf(input), MedicationsOf(input);
    var noteRows, medRows := NoteCiphers(ctx, notes), MedicationCiphers(ctx, 2 + |notes|, meds);
    CreatedRows(t, ctx, doctorId, input);
    AddPatientRows(t, PatientDraft(ctx, input), doctorId, noteRows, medRows, ctx.now);
    NoteCiphersDecrypt(ctx, notes);
  }

  /**
   * Under a correct cipher each stored medication field decrypts back to
   * the given one; absent medications create no rows.
   */
  lemma CreatePatientMedicationsRoundTrip(t: Tables, ctx: Context, doctorId: UserId, input: CreatePatientInput)
    requires FindById(t.users, doctorId).Some? && FindById(t.users, doctorId).value.role == DOCTOR
    requires FindByEmail(t.users, input.email).None?
    requires FieldCipher.Correct(ctx.cipher.aead)
    ensures var s := CreatePatientSpec(t, ctx, doctorId, input);
      var meds := MedicationsOf(input);
      && |s.tables.records| == |t.records| + 1
      && var rec := s.tables.records[|t.records|];
      && (input.medications.None? ==> rec.medications == [])
      && |rec.medications| == |meds|
      && forall j :: 0 <= j < |meds| ==>
           && Dec(ctx, Some(rec.medications[j].name)) == Ok(meds[j].name)
           && Dec(ctx, Some(rec.medications[j].dosage)) == Ok(meds[j].dosage)
           && Dec(ctx, Some(rec.medications[j].schedule)) == Ok(meds[j].schedule)
  {
    CreatePatientMedications(t, ctx, doctorId, input);
    MedicationCiphersDecrypt(ctx, 2 + |NotesOf(input)|, MedicationsOf(input));
  }

  /**
   * Under a correct cipher, for an e-mail address without a colon, the
   * call succeeds and returns the patient with the name and diagnosis in
   * plaintext and, as written, the e-mail address blanked by `decrypt`.
   */
  lemma CreatePatientReturns(t: Tables, ctx: Context, doctorId: UserId, input: CreatePatientInput)
    requires FindById(t.users, doctorId).Some? && FindById(t.users, doctorId).value.role == DOCTOR
    requires FindByEmail(t.users, input.email).None?
    requires FieldCipher.Correct(ctx.cipher.aead) && ':' !in input.email
    ensures var s := CreatePatientSpec(t, ctx, doctorId, input);
      && s.result.Ok?
      && s.result.value.patient.id == t.nextId
      && s.result.value.patient.name == input.name
      && s.result.value.patient.diagnosis == Some(DiagnosisText(input))
      && s.result.value.patient.email == ""
  {
    CreatePatientTryOutcome(t, ctx, doctorId, input);
    CreatePatientIsTry(t, ctx, doctorId, input);
    DecEnc(ctx, 0, input.name);
    DecEnc(ctx, 1, DiagnosisText(input));
    FieldCipher.DecryptPlaintext(ctx.cipher, input.email);
  }
}
