/**
 * The administrator's services (backend/src/services/admin.service.ts):
 * creating doctors and nurses, listing doctors and nurses with their
 * assignments, deleting a doctor with everything that hangs off them, and
 * paging through the audit log.
 *
 * Each service that writes an audit row is a try block (`...Try`) whose
 * catch block writes a failure audit with the error's message and
 * rethrows (`Env.Caught`); the method makes the same store calls on a
 * `Database` in the source's order.
 */
module AdminService {
  import opened Common
  import opened Store
  import opened Errors
  import opened Env
  import FieldCipher
  import Primitives
  import AuthService

  const EMAIL_IN_USE: Error := AppError("Email already in use", 400)
  const DOCTOR_NOT_FOUND: Error := NotFoundError("Doctor not found")
  const DOCTOR_DELETED := "Doctor deleted successfully"

  /** The audit of an administrator's action on a user. */
  function AdminAudit(ctx: Context, actorId: UserId, action: string, targetId: Option<UserId>,
                      metadata: Option<map<string, MetaValue>>): AuditEntry
  {
    Entry(ctx, Some(actorId), "ADMIN", action, "USER", targetId, true, metadata)
  }

  /** The catch block's audit of `action`, given the error's message. */
  function AdminFailure(ctx: Context, actorId: UserId, action: string): string -> AuditEntry
  {
    (message: string) => Entry(ctx, Some(actorId), "ADMIN", action, "USER", None, false, ErrorMeta(message))
  }

  /**
   * The row a staff member is created with: the name encrypted (the call's
   * first `encrypt`), the e-mail in plaintext, the bcrypt hash of the
   * password, and the password dated now.
   */
  function StaffDraft(ctx: Context, name: string, email: string, password: string, role: Role): User
  {
    User(0, email, Enc(ctx, 0, name), ctx.hasher.hash(password, ctx.salt), role, Some(ctx.now), None)
  }

  // createDoctorService

  function CreateDoctorTry(t: Tables, ctx: Context, actorId: UserId, name: string, email: string, password: string)
    : Step<User>
  {
    if FindByEmail(t.users, email).Some? then Step(t, Err(EMAIL_IN_USE))
    else
      var created := AddUser(t, StaffDraft(ctx, name, email, password, DOCTOR));
      Step(Log(created.0, ctx, AdminAudit(ctx, actorId, "CREATE_DOCTOR", Some(created.1.id), None)), Ok(created.1))
  }

  function CreateDoctorSpec(t: Tables, ctx: Context, actorId: UserId, name: string, email: string, password: string)
    : Step<User>
  {
    Caught(CreateDoctorTry(t, ctx, actorId, name, email, password), ctx, AdminFailure(ctx, actorId, "CREATE_DOCTOR"))
  }

  method CreateDoctor(db: Database, ctx: Context, actorId: UserId, name: string, email: string, password: string)
    returns (r: Result<User, Error>)
    modifies db
    ensures db.Snapshot() == CreateDoctorSpec(old(db.Snapshot()), ctx, actorId, name, email, password).tables
    ensures r == CreateDoctorSpec(old(db.Snapshot()), ctx, actorId, name, email, password).result
  {
    var emailExists := FindByEmail(db.users, email);
    if emailExists.Some? {
      r := Err(EMAIL_IN_USE);
    } else {
      var doctor := db.CreateUser(StaffDraft(ctx, name, email, password, DOCTOR));
      WriteLog(db, ctx, AdminAudit(ctx, actorId, "CREATE_DOCTOR", Some(doctor.id), None));
      r := Ok(doctor);
    }
    CatchLog(db, ctx, r, AdminFailure(ctx, actorId, "CREATE_DOCTOR"));
  }

  /** A taken e-mail address: the 400 error, no user created, one failure audit carrying the message. */
  lemma CreateDoctorEmailTaken(t: Tables, ctx: Context, actorId: UserId, name: string, email: string, password: string)
    requires FindByEmail(t.users, email).Some?
    ensures var s := CreateDoctorSpec(t, ctx, actorId, name, email, password);
      && s.result == Err(AppError("Email already in use", 400))
      && s.tables.(audit := t.audit) == t
      && (AuditStoreUp(ctx) ==>
            Appended(t, s.tables) == [Row(ctx, AdminFailure(ctx, actorId, "CREATE_DOCTOR")("Email already in use"))])
  {
    LogEffect(t, ctx, AdminFailure(ctx, actorId, "CREATE_DOCTOR")("Email already in use"));
  }

  /**
   * A free e-mail address: exactly one user is added, a doctor with that
   * e-mail address and the next identifier, whom a lookup by e-mail address
   * now finds; no other table but the audit log changes.
   */
  lemma CreateDoctorSucceeds(t: Tables, ctx: Context, actorId: UserId, name: string, email: string, password: string)
    requires FindByEmail(t.users, email).None?
    ensures var s := CreateDoctorSpec(t, ctx, actorId, name, email, password);
      && s.result.Ok?
      && var d := s.result.value;
      && d.id == t.nextId && d.role == DOCTOR && d.email == email && d.passwordUpdatedAt == Some(ctx.now)
      && s.tables.users == t.users + [d]
      && s.tables.assignments == t.assignments && s.tables.records == t.records
      && FindByEmail(s.tables.users, email) == Some(d)
  {
    var created := AddUser(t, StaffDraft(ctx, name, email, password, DOCTOR));
    LogEffect(created.0, ctx, AdminAudit(ctx, actorId, "CREATE_DOCTOR", Some(created.1.id), None));
    FindByEmailAppend(t.users, created.1);
  }

  /** The new doctor's name decrypts back under a correct cipher, and the password matches the stored hash. */
  lemma CreateDoctorCredentials(t: Tables, ctx: Context, actorId: UserId, name: string, email: string, password: string)
    requires FindByEmail(t.users, email).None?
    ensures var s := CreateDoctorSpec(t, ctx, actorId, name, email, password);
      && s.result.Ok?
      && (FieldCipher.Correct(ctx.cipher.aead) ==> Dec(ctx, Some(s.result.value.name)) == Ok(name))
      && (Primitives.Sound(ctx.hasher) ==> ctx.hasher.compare(password, s.result.value.password))
  {
    if FieldCipher.Correct(ctx.cipher.aead) {
      DecEnc(ctx, 0, name);
    }
  }

  /** Creating a doctor keeps the store valid and writes one success audit naming the new doctor. */
  lemma CreateDoctorAudited(t: Tables, ctx: Context, actorId: UserId, name: string, email: string, password: string)
    requires FindByEmail(t.users, email).None?
    ensures var s := CreateDoctorSpec(t, ctx, actorId, name, email, password);
      && s.result.Ok?
      && (Valid(t) ==> Valid(s.tables))
      && (AuditStoreUp(ctx) ==>
            Appended(t, s.tables) == [Row(ctx, AdminAudit(ctx, actorId, "CREATE_DOCTOR", Some(s.result.value.id), None))])
  {
    var draft := StaffDraft(ctx, name, email, password, DOCTOR);
    var created := AddUser(t, draft);
    LogEffect(created.0, ctx, AdminAudit(ctx, actorId, "CREATE_DOCTOR", Some(created.1.id), None));
    if Valid(t) {
      AddUserValid(t, draft);
    }
  }

  /** A doctor just created can log in with the password the administrator chose, for thirty days. */
  lemma CreatedDoctorCanLogIn(t: Tables, ctx: Context, ctx2: Context, actorId: UserId, name: string, email: string,
                              password: string)
    requires FindByEmail(t.users, email).None?
    requires Primitives.Sound(ctx.hasher) && ctx2.hasher == ctx.hasher
    requires ctx.now <= ctx2.now <= ctx.now + 2592000000
    ensures var s := CreateDoctorSpec(t, ctx, actorId, name, email, password);
      s.result.Ok? && AuthService.LoginSpec(s.tables, ctx2, email, password).result == Ok(s.result.value)
  {
    CreateDoctorSucceeds(t, ctx, actorId, name, email, password);
    CreateDoctorCredentials(t, ctx, actorId, name, email, password);
  }

  // createNurseService

  /** `true` for a user that exists and is a doctor. */
  predicate IsDoctor(t: Tables, id: UserId)
  {
    FindById(t.users, id).Some? && FindById(t.users, id).value.role == DOCTOR
  }

  function CreateNurseTry(t: Tables, ctx: Context, actorId: UserId, name: string, email: string, password: string,
                          doctorId: UserId): Step<User>
  {
    if !IsDoctor(t, doctorId) then Step(t, Err(DOCTOR_NOT_FOUND))
    else if FindByEmail(t.users, email).Some? then Step(t, Err(EMAIL_IN_USE))
    else
      var created := AddUser(t, StaffDraft(ctx, name, email, password, NURSE));
      var nurse := created.1;
      var t2 := AddAssignment(created.0, Assignment(nurse.id, doctorId));
      Step(Log(t2, ctx, AdminAudit(ctx, actorId, "CREATE_NURSE_AND_ASSIGN", Some(nurse.id),
                                   Some(map["doctorId" := Ref(doctorId)]))), Ok(nurse))
  }

  function CreateNurseSpec(t: Tables, ctx: Context, actorId: UserId, name: string, email: string, password: string,
                           doctorId: UserId): Step<User>
  {
    Caught(CreateNurseTry(t, ctx, actorId, name, email, password, doctorId), ctx,
           AdminFailure(ctx, actorId, "CREATE_NURSE_AND_ASSIGN"))
  }

  method CreateNurse(db: Database, ctx: Context, actorId: UserId, name: string, email: string, password: string,
                     doctorId: UserId) returns (r: Result<User, Error>)
    modifies db
    ensures db.Snapshot() == CreateNurseSpec(old(db.Snapshot()), ctx, actorId, name, email, password, doctorId).tables
    ensures r == CreateNurseSpec(old(db.Snapshot()), ctx, actorId, name, email, password, doctorId).result
  {
    var doctor := FindById(db.users, doctorId);
    if doctor.None? || doctor.value.role != DOCTOR {
      r := Err(DOCTOR_NOT_FOUND);
    } else if FindByEmail(db.users, email).Some? {
      r := Err(EMAIL_IN_USE);
    } else {
      var nurse := db.CreateUser(StaffDraft(ctx, name, email, password, NURSE));
      db.CreateAssignment(Assignment(nurse.id, doctor.value.id));
      WriteLog(db, ctx, AdminAudit(ctx, actorId, "CREATE_NURSE_AND_ASSIGN", Some(nurse.id),
                                   Some(map["doctorId" := Ref(doctorId)])));
      r := Ok(nurse);
    }
    CatchLog(db, ctx, r, AdminFailure(ctx, actorId, "CREATE_NURSE_AND_ASSIGN"));
  }

  /**
   * The doctor is checked before the e-mail address: naming a missing user
   * or a non-doctor fails with "Doctor not found" whether or not the e-mail
   * is taken, and only the failure audit is written.
   */
  lemma CreateNurseNeedsDoctor(t: Tables, ctx: Context, actorId: UserId, name: string, email: string, password: string,
                               doctorId: UserId)
    requires !IsDoctor(t, doctorId)
    ensures var s := CreateNurseSpec(t, ctx, actorId, name, email, password, doctorId);
      && s.result == Err(NotFoundError("Doctor not found"))
      && s.tables.(audit := t.audit) == t
      && (AuditStoreUp(ctx) ==>
            Appended(t, s.tables) == [Row(ctx, AdminFailure(ctx, actorId, "CREATE_NURSE_AND_ASSIGN")("Doctor not found"))])
  {
    LogEffect(t, ctx, AdminFailure(ctx, actorId, "CREATE_NURSE_AND_ASSIGN")("Doctor not found"));
  }

  /** With a real doctor, a taken e-mail fails with the 400 error and creates nothing. */
  lemma CreateNurseEmailTaken(t: Tables, ctx: Context, actorId: UserId, name: string, email: string, password: string,
                              doctorId: UserId)
    requires IsDoctor(t, doctorId) && FindByEmail(t.users, email).Some?
    ensures var s := CreateNurseSpec(t, ctx, actorId, name, email, password, doctorId);
      s.result == Err(AppError("Email already in use", 400)) && s.tables.(audit := t.audit) == t
  {
    LogEffect(t, ctx, AdminFailure(ctx, actorId, "CREATE_NURSE_AND_ASSIGN")("Email already in use"));
  }

  /**
   * Success adds one nurse and exactly one assignment of that nurse to the
   * doctor, leaves the records alone, keeps the store valid, and audits the
   * doctor's identifier in the metadata.
   */
  lemma CreateNurseSucceeds(t: Tables, ctx: Context, actorId: UserId, name: string, email: string, password: string,
                            doctorId: UserId)
    requires IsDoctor(t, doctorId) && FindByEmail(t.users, email).None?
    ensures var s := CreateNurseSpec(t, ctx, actorId, name, email, password, doctorId);
      && s.result.Ok?
      && var n := s.result.value;
      && n.id == t.nextId && n.role == NURSE && n.email == email
      && s.tables.users == t.users + [n]
      && s.tables.assignments == t.assignments + [Assignment(n.id, doctorId)]
      && s.tables.records == t.records
      && (Valid(t) ==> Valid(s.tables))
      && (AuditStoreUp(ctx) ==>
            && |Appended(t, s.tables)| == 1
            && Appended(t, s.tables)[0].entry.targetId == Some(n.id)
            && Appended(t, s.tables)[0].entry.metadata == Some(map["doctorId" := Ref(doctorId)]))
  {
    var draft := StaffDraft(ctx, name, email, password, NURSE);
    var created := AddUser(t, draft);
    var t2 := AddAssignment(created.0, Assignment(created.1.id, doctorId));
    LogEffect(t2, ctx, AdminAudit(ctx, actorId, "CREATE_NURSE_AND_ASSIGN", Some(created.1.id),
                                  Some(map["doctorId" := Ref(doctorId)])));
    if Valid(t) {
      AddUserValid(t, draft);
    }
  }

  // getAllDoctorsService

  datatype NurseSummary = NurseSummary(id: UserId, name: string, email: string)

  datatype DoctorAssignmentView = DoctorAssignmentView(nurseId: UserId, doctorId: UserId, nurse: NurseSummary)

  /** A doctor as listed: decrypted name, e-mail as stored, assignments, and the ids of their patients' records. */
  datatype DoctorView = DoctorView(
    id: UserId,
    name: string,
    email: string,
    role: Role,
    doctorAssignments: seq<DoctorAssignmentView>,
    doctorPatients: seq<nat>)

  function HasRole(role: Role): User -> bool
  {
    (u: User) => u.role == role
  }

  function OfDoctor(doctorId: UserId): Assignment -> bool
  {
    (a: Assignment) => a.doctorId == doctorId
  }

  function RecordOfDoctor(doctorId: UserId): PatientRecord -> bool
  {
    (r: PatientRecord) => r.doctorId == doctorId
  }

  /** `user.findMany({ where: { role } })`, in store order. */
  function UsersWithRole(t: Tables, role: Role): seq<User>
  {
    Filter(t.users, HasRole(role))
  }

  /** The ids of the records a doctor is responsible for. */
  function RecordIdsOf(t: Tables, doctorId: UserId): (ids: seq<nat>)
    ensures |ids| == |Filter(t.records, RecordOfDoctor(doctorId))|
  {
    var rs := Filter(t.records, RecordOfDoctor(doctorId));
    seq(|rs|, i requires 0 <= i < |rs| => rs[i].id)
  }

  /** An assignment with its nurse, whose name and e-mail are both passed through `decrypt`. */
  function AssignedNurseView(ctx: Context, t: Tables, a: Assignment, decryptEmail: bool)
    : Result<DoctorAssignmentView, string>
  {
    var nurse := UserOrBlank(t.users, a.nurseId);
    var name :- Dec(ctx, Some(nurse.name));
    var email :- if decryptEmail then Dec(ctx, Some(nurse.email)) else Ok(nurse.email);
    Ok(DoctorAssignmentView(a.nurseId, a.doctorId, NurseSummary(nurse.id, name, email)))
  }

  function DoctorViewOf(ctx: Context, t: Tables, d: User, decryptEmail: bool): Result<DoctorView, string>
  {
    var name :- Dec(ctx, Some(d.name));
    var assignments :- MapResult(Filter(t.assignments, OfDoctor(d.id)), NurseViewer(ctx, t, decryptEmail));
    Ok(DoctorView(d.id, name, d.email, d.role, assignments, RecordIdsOf(t, d.id)))
  }

  function NurseViewer(ctx: Context, t: Tables, decryptEmail: bool): Assignment -> Result<DoctorAssignmentView, string>
  {
    (a: Assignment) => AssignedNurseView(ctx, t, a, decryptEmail)
  }

  function DoctorViewer(ctx: Context, t: Tables, decryptEmail: bool): User -> Result<DoctorView, string>
  {
    (d: User) => DoctorViewOf(ctx, t, d, decryptEmail)
  }

  /** A doctor's view keeps the doctor's identifier, stored e-mail address and role. */
  lemma DoctorViewKeeps(ctx: Context, t: Tables, d: User, decryptEmail: bool)
    ensures var v := DoctorViewOf(ctx, t, d, decryptEmail);
      v.Ok? ==> v.value.id == d.id && v.value.email == d.email && v.value.role == d.role
  {
  }

  /**
   * The try block of `getAllDoctorsService`; `decryptEmail` is the source's
   * choice of passing the nurse's e-mail through `decrypt` (true as written).
   */
  function ListDoctorsTry(t: Tables, ctx: Context, actorId: UserId, decryptEmail: bool): Step<seq<DoctorView>>
  {
    match MapResult(UsersWithRole(t, DOCTOR), DoctorViewer(ctx, t, decryptEmail))
    case Err(message) => Step(t, Err(CipherError(message)))
    case Ok(views) => Step(Log(t, ctx, AdminAudit(ctx, actorId, "FETCH_DOCTORS", None, None)), Ok(views))
  }

  function GetAllDoctorsSpec(t: Tables, ctx: Context, actorId: UserId): Step<seq<DoctorView>>
  {
    Caught(ListDoctorsTry(t, ctx, actorId, true), ctx, AdminFailure(ctx, actorId, "FETCH_DOCTORS"))
  }

  method GetAllDoctors(db: Database, ctx: Context, actorId: UserId) returns (r: Result<seq<DoctorView>, Error>)
    modifies db
    ensures db.Snapshot() == GetAllDoctorsSpec(old(db.Snapshot()), ctx, actorId).tables
    ensures r == GetAllDoctorsSpec(old(db.Snapshot()), ctx, actorId).result
  {
    var t := db.Snapshot();
    var decrypted := MapResult(UsersWithRole(t, DOCTOR), DoctorViewer(ctx, t, true));
    if decrypted.Err? {
      r := Err(CipherError(decrypted.error));
    } else {
      WriteLog(db, ctx, AdminAudit(ctx, actorId, "FETCH_DOCTORS", None, None));
      r := Ok(decrypted.value);
    }
    CatchLog(db, ctx, r, AdminFailure(ctx, actorId, "FETCH_DOCTORS"));
  }

  /**
   * When listing doctors succeeds there is one view per doctor, in store
   * order, each with the doctor's identifier, stored e-mail address and role.
   */
  lemma GetAllDoctorsShape(t: Tables, ctx: Context, actorId: UserId)
    ensures var s := GetAllDoctorsSpec(t, ctx, actorId);
      && (s.result.Ok? ==>
            var doctors := UsersWithRole(t, DOCTOR);
            && |s.result.value| == |doctors|
            && forall i :: 0 <= i < |doctors| ==>
                 && s.result.value[i].id == doctors[i].id
                 && s.result.value[i].email == doctors[i].email
                 && s.result.value[i].role == DOCTOR)
      && (s.result.Err? ==> s.result.error.CipherError?)
  {
    var doctors := UsersWithRole(t, DOCTOR);
    var views := MapResult(doctors, DoctorViewer(ctx, t, true));
    if views.Ok? {
      forall i | 0 <= i < |doctors| ensures views.value[i].id == doctors[i].id && views.value[i].email == doctors[i].email
        && views.value[i].role == DOCTOR
      {
        assert DoctorViewer(ctx, t, true)(doctors[i]) == DoctorViewOf(ctx, t, doctors[i], true);
        DoctorViewKeeps(ctx, t, doctors[i], true);
        assert doctors[i] in t.users && HasRole(DOCTOR)(doctors[i]);
      }
    }
  }

  /** Listing doctors changes nothing but the audit log. */
  lemma GetAllDoctorsWritesOnlyAudit(t: Tables, ctx: Context, actorId: UserId)
    ensures GetAllDoctorsSpec(t, ctx, actorId).tables.(audit := t.audit) == t
  {
    match MapResult(UsersWithRole(t, DOCTOR), DoctorViewer(ctx, t, true))
    case Err(message) =>
      LogEffect(t, ctx, AdminFailure(ctx, actorId, "FETCH_DOCTORS")(message));
    case Ok(vs) =>
      LogEffect(t, ctx, AdminAudit(ctx, actorId, "FETCH_DOCTORS", None, None));
  }

  /**
   * As written, a nurse's e-mail address, stored in plaintext, goes through
   * `decrypt`: an address without two colons reads as "" in every listing.
   */
  lemma DoctorListingBlanksNurseEmail(t: Tables, ctx: Context, actorId: UserId, a: Assignment)
    requires ':' !in UserOrBlank(t.users, a.nurseId).email
    requires AssignedNurseView(ctx, t, a, true).Ok?
    ensures AssignedNurseView(ctx, t, a, true).value.nurse.email == ""
  {
    FieldCipher.DecryptPlaintext(ctx.cipher, UserOrBlank(t.users, a.nurseId).email);
  }

  /** The listing with the nurse's e-mail address passed through as stored, like the doctor's own. */
  function GetAllDoctorsCorrectedSpec(t: Tables, ctx: Context, actorId: UserId): Step<seq<DoctorView>>
  {
    Caught(ListDoctorsTry(t, ctx, actorId, false), ctx, AdminFailure(ctx, actorId, "FETCH_DOCTORS"))
  }

  /** In the corrected listing every nurse shows the address stored for them. */
  lemma CorrectedListingKeepsNurseEmail(t: Tables, ctx: Context, actorId: UserId)
    ensures var s := GetAllDoctorsCorrectedSpec(t, ctx, actorId);
      s.result.Ok? ==>
        forall i, j :: 0 <= i < |s.result.value| && 0 <= j < |s.result.value[i].doctorAssignments| ==>
          var v := s.result.value[i].doctorAssignments[j];
          v.nurse.email == UserOrBlank(t.users, v.nurseId).email
  {
    var doctors := UsersWithRole(t, DOCTOR);
    var views := MapResult(doctors, DoctorViewer(ctx, t, false));
    if views.Ok? {
      forall i, j | 0 <= i < |views.value| && 0 <= j < |views.value[i].doctorAssignments|
        ensures var v := views.value[i].doctorAssignments[j]; v.nurse.email == UserOrBlank(t.users, v.nurseId).email
      {
        var d := doctors[i];
        var own := Filter(t.assignments, OfDoctor(d.id));
        var inner := MapResult(own, NurseViewer(ctx, t, false));
        assert DoctorViewer(ctx, t, false)(d) == DoctorViewOf(ctx, t, d, false);
        assert views.value[i] == DoctorViewOf(ctx, t, d, false).value;
        assert NurseViewer(ctx, t, false)(own[j]) == AssignedNurseView(ctx, t, own[j], false);
        assert views.value[i].doctorAssignments == inner.value;
        assert inner.value[j] == AssignedNurseView(ctx, t, own[j], false).value;
      }
    }
  }

  // getAllNursesService

  /**
   * The nurse listing's lenient decrypt: empty for a missing or empty value;
   * a value with exactly three colon-separated fields is decrypted, and
   * kept as it is when decryption throws; anything else is kept as it is.
   */
  function SafeDecrypt(c: FieldCipher.Cipher, value: Option<string>): string
  {
    if value.None? || value.value == "" then ""
    else if ':' in value.value && |Split(value.value, ':')| == 3 then
      match FieldCipher.Decrypt(c, value)
      case Ok(plain) => plain
      case Err(_) => value.value
    else value.value
  }

  /** Plaintext without a colon passes through; ciphertext of `encrypt` comes back as its plaintext. */
  lemma SafeDecryptCases(c: FieldCipher.Cipher, iv: FieldCipher.Iv, text: string, v: string)
    ensures ':' !in v ==> SafeDecrypt(c, Some(v)) == v
    ensures |Split(v, ':')| != 3 ==> SafeDecrypt(c, Some(v)) == v
    ensures FieldCipher.Correct(c.aead) ==> SafeDecrypt(c, Some(FieldCipher.Encrypt(c, iv, text))) == text
  {
    if FieldCipher.Correct(c.aead) {
      var h := FieldCipher.Encrypt(c, iv, text);
      FieldCipher.EncryptFields(c, iv, text);
      FieldCipher.DecryptEncrypt(c, iv, text);
      SplitWithoutSeparator(h, ':');
    }
  }

  /** SafeDecrypt never throws, and a failing decryption leaves the stored value visible. */
  lemma SafeDecryptFailure(c: FieldCipher.Cipher, v: string)
    requires FieldCipher.Decrypt(c, Some(v)).Err?
    ensures SafeDecrypt(c, Some(v)) == v || |Split(v, ':')| == 3
    ensures |Split(v, ':')| == 3 ==> SafeDecrypt(c, Some(v)) == v
  {
    SplitWithoutSeparator(v, ':');
  }

  datatype DoctorSummary = DoctorSummary(id: UserId, name: string, email: string)

  datatype NurseView = NurseView(id: UserId, name: string, email: string, role: Role, assignedDoctors: seq<DoctorSummary>)

  function OfNurse(nurseId: UserId): Assignment -> bool
  {
    (a: Assignment) => a.nurseId == nurseId
  }

  function DoctorPresent(t: Tables): Assignment -> bool
  {
    (a: Assignment) => FindById(t.users, a.doctorId).Some?
  }

  /** A nurse's assignments whose doctor is present. */
  function LinkedAssignments(t: Tables, nurseId: UserId): seq<Assignment>
  {
    Filter(Filter(t.assignments, OfNurse(nurseId)), DoctorPresent(t))
  }

  function DoctorSummaryOf(c: FieldCipher.Cipher, t: Tables, a: Assignment): DoctorSummary
  {
    var d := UserOrBlank(t.users, a.doctorId);
    DoctorSummary(d.id, SafeDecrypt(c, Some(d.name)), SafeDecrypt(c, Some(d.email)))
  }

  function NurseViewOf(c: FieldCipher.Cipher, t: Tables, n: User): NurseView
  {
    var linked := LinkedAssignments(t, n.id);
    NurseView(n.id, SafeDecrypt(c, Some(n.name)), SafeDecrypt(c, Some(n.email)), n.role,
              seq(|linked|, i requires 0 <= i < |linked| => DoctorSummaryOf(c, t, linked[i])))
  }

  /** Every nurse, never failing on a bad ciphertext, and one FETCH_NURSES audit. */
  function GetAllNursesSpec(t: Tables, ctx: Context, actorId: UserId): Step<seq<NurseView>>
  {
    var nurses := UsersWithRole(t, NURSE);
    var views := seq(|nurses|, i requires 0 <= i < |nurses| => NurseViewOf(ctx.cipher, t, nurses[i]));
    Step(Log(t, ctx, AdminAudit(ctx, actorId, "FETCH_NURSES", None, None)), Ok(views))
  }

  method GetAllNurses(db: Database, ctx: Context, actorId: UserId) returns (r: Result<seq<NurseView>, Error>)
    modifies db
    ensures db.Snapshot() == GetAllNursesSpec(old(db.Snapshot()), ctx, actorId).tables
    ensures r == GetAllNursesSpec(old(db.Snapshot()), ctx, actorId).result
  {
    var t := db.Snapshot();
    var nurses := UsersWithRole(t, NURSE);
    var result := seq(|nurses|, i requires 0 <= i < |nurses| => NurseViewOf(ctx.cipher, t, nurses[i]));
    WriteLog(db, ctx, AdminAudit(ctx, actorId, "FETCH_NURSES", None, None));
    r := Ok(result);
  }

  /**
   * The nurse listing always succeeds and changes only the audit log: one
   * view per nurse, and each nurse's doctors are exactly the doctors present
   * among that nurse's assignments, in assignment order.
   */
  lemma GetAllNursesShape(t: Tables, ctx: Context, actorId: UserId)
    ensures var s := GetAllNursesSpec(t, ctx, actorId);
      && s.result.Ok?
      && s.tables.(audit := t.audit) == t
      && |s.result.value| == |UsersWithRole(t, NURSE)|
      && forall i :: 0 <= i < |s.result.value| ==>
           var n := UsersWithRole(t, NURSE)[i];
           var docs := s.result.value[i].assignedDoctors;
           && s.result.value[i].id == n.id
           && |docs| == |LinkedAssignments(t, n.id)|
           && forall k :: 0 <= k < |docs| ==>
                && docs[k].id == LinkedAssignments(t, n.id)[k].doctorId
                && LinkedAssignments(t, n.id)[k] in t.assignments
                && LinkedAssignments(t, n.id)[k].nurseId == n.id
  {
    LogEffect(t, ctx, AdminAudit(ctx, actorId, "FETCH_NURSES", None, None));
    var nurses := UsersWithRole(t, NURSE);
    forall i, k | 0 <= i < |nurses| && 0 <= k < |LinkedAssignments(t, nurses[i].id)|
      ensures var a := LinkedAssignments(t, nurses[i].id)[k];
        && UserOrBlank(t.users, a.doctorId).id == a.doctorId && a in t.assignments && a.nurseId == nurses[i].id
    {
      var own := Filter(t.assignments, OfNurse(nurses[i].id));
      var a := LinkedAssignments(t, nurses[i].id)[k];
      assert a in own && DoctorPresent(t)(a);
      var j :| 0 <= j < |own| && own[j] == a;
    }
  }

  // deleteDoctorService

  function DeleteDoctorTry(t: Tables, ctx: Context, actorId: UserId, doctorId: UserId): Step<string>
  {
    if !IsDoctor(t, doctorId) then Step(t, Err(DOCTOR_NOT_FOUND))
    else
      var t1 := DropUser(DropRecordsOf(DropAssignmentsOf(t, doctorId), doctorId), doctorId);
      Step(Log(t1, ctx, AdminAudit(ctx, actorId, "DELETE_DOCTOR", Some(doctorId), None)), Ok(DOCTOR_DELETED))
  }

  function DeleteDoctorSpec(t: Tables, ctx: Context, actorId: UserId, doctorId: UserId): Step<string>
  {
    Caught(DeleteDoctorTry(t, ctx, actorId, doctorId), ctx, AdminFailure(ctx, actorId, "DELETE_DOCTOR"))
  }

  method DeleteDoctor(db: Database, ctx: Context, actorId: UserId, doctorId: UserId) returns (r: Result<string, Error>)
    modifies db
    ensures db.Snapshot() == DeleteDoctorSpec(old(db.Snapshot()), ctx, actorId, doctorId).tables
    ensures r == DeleteDoctorSpec(old(db.Snapshot()), ctx, actorId, doctorId).result
  {
    var doctor := FindById(db.users, doctorId);
    if doctor.None? || doctor.value.role != DOCTOR {
      r := Err(DOCTOR_NOT_FOUND);
    } else {
      db.DeleteAssignmentsOf(doctorId);
      db.DeleteRecordsOf(doctorId);
      db.DeleteUser(doctorId);
      WriteLog(db, ctx, AdminAudit(ctx, actorId, "DELETE_DOCTOR", Some(doctorId), None));
      r := Ok(DOCTOR_DELETED);
    }
    CatchLog(db, ctx, r, AdminFailure(ctx, actorId, "DELETE_DOCTOR"));
  }

  /** Deleting a user who is not a doctor fails with "Doctor not found" and deletes nothing. */
  lemma DeleteDoctorNotFound(t: Tables, ctx: Context, actorId: UserId, doctorId: UserId)
    requires !IsDoctor(t, doctorId)
    ensures var s := DeleteDoctorSpec(t, ctx, actorId, doctorId);
      && s.result == Err(NotFoundError("Doctor not found"))
      && s.tables.(audit := t.audit) == t
      && (AuditStoreUp(ctx) ==> |Appended(t, s.tables)| == 1 && !Appended(t, s.tables)[0].entry.success)
  {
    LogEffect(t, ctx, AdminFailure(ctx, actorId, "DELETE_DOCTOR")("Doctor not found"));
  }

  /**
   * Deleting a doctor removes the doctor, every assignment to them and
   * every record they are responsible for, and nothing else: each other
   * user, assignment and record survives. The reset codes are untouched.
   */
  lemma DeleteDoctorCascade(t: Tables, ctx: Context, actorId: UserId, doctorId: UserId)
    requires IsDoctor(t, doctorId)
    ensures var s := DeleteDoctorSpec(t, ctx, actorId, doctorId);
      && s.result == Ok("Doctor deleted successfully")
      && FindById(s.tables.users, doctorId).None?
      && (forall u :: u in t.users && u.id != doctorId ==> u in s.tables.users)
      && (forall u :: u in s.tables.users ==> u in t.users)
      && (forall a :: a in s.tables.assignments <==> a in t.assignments && a.doctorId != doctorId)
      && (forall r :: r in s.tables.records <==> r in t.records && r.doctorId != doctorId)
      && s.tables.resetCodes == t.resetCodes
  {
    var t1 := DropAssignmentsOf(t, doctorId);
    var t2 := DropRecordsOf(t1, doctorId);
    var t3 := DropUser(t2, doctorId);
    LogEffect(t3, ctx, AdminAudit(ctx, actorId, "DELETE_DOCTOR", Some(doctorId), None));
    forall u | u in t3.users ensures u.id != doctorId && u in t.users {
      var i :| 0 <= i < |t3.users| && t3.users[i] == u;
    }
    forall a ensures a in t3.assignments <==> a in t.assignments && a.doctorId != doctorId {
      if a in t3.assignments {
        var i :| 0 <= i < |t3.assignments| && t3.assignments[i] == a;
      }
      if a in t.assignments && a.doctorId != doctorId {
        var i :| 0 <= i < |t.assignments| && t.assignments[i] == a;
      }
    }
    forall r ensures r in t3.records <==> r in t.records && r.doctorId != doctorId {
      if r in t3.records {
        var i :| 0 <= i < |t3.records| && t3.records[i] == r;
      }
      if r in t.records && r.doctorId != doctorId {
        var i :| 0 <= i < |t.records| && t.records[i] == r;
      }
    }
    forall u | u in t.users && u.id != doctorId ensures u in t3.users {
      var i :| 0 <= i < |t.users| && t.users[i] == u;
    }
  }

  /** Deleting a doctor keeps the store valid and writes one success audit naming the doctor. */
  lemma DeleteDoctorAudited(t: Tables, ctx: Context, actorId: UserId, doctorId: UserId)
    requires IsDoctor(t, doctorId)
    ensures var s := DeleteDoctorSpec(t, ctx, actorId, doctorId);
      && (Valid(t) ==> Valid(s.tables))
      && (AuditStoreUp(ctx) ==>
            Appended(t, s.tables) == [Row(ctx, AdminAudit(ctx, actorId, "DELETE_DOCTOR", Some(doctorId), None))])
  {
    var t1 := DropAssignmentsOf(t, doctorId);
    var t2 := DropRecordsOf(t1, doctorId);
    var t3 := DropUser(t2, doctorId);
    LogEffect(t3, ctx, AdminAudit(ctx, actorId, "DELETE_DOCTOR", Some(doctorId), None));
    if Valid(t) {
      DropAssignmentsValid(t, doctorId);
      DropRecordsValid(t1, doctorId);
      DropUserValid(t2, doctorId);
    }
  }

  // getAllAuditLogsService

  const DEFAULT_PAGE: int := 1
  const DEFAULT_LIMIT: int := 50

  datatype AuditPage = AuditPage(logs: seq<AuditRow>, total: nat, page: int, limit: int)

  function Timestamp(row: AuditRow): int
  {
    row.timestamp
  }

  /** The whole audit log, newest first. */
  function Newest(t: Tables): seq<AuditRow>
  {
    SortDescBy(t.audit, Timestamp)
  }

  /**
   * One page of the audit log: skip `(page - 1) * limit` rows of the log
   * sorted newest first and take `limit`; the store refuses a negative
   * skip. Missing arguments default to page 1 and 50 rows.
   */
  function GetAllAuditLogsSpec(t: Tables, page: Option<int>, limit: Option<int>): Result<AuditPage, Error>
  {
    PageNumbered(t, if page.Some? then page.value else DEFAULT_PAGE, if limit.Some? then limit.value else DEFAULT_LIMIT)
  }

  /** Page `page` of `limit` rows. */
  function PageNumbered(t: Tables, page: int, limit: int): Result<AuditPage, Error>
  {
    PageAt(t, page, limit, (page - 1) * limit)
  }

  /** The page for a given skip: `findMany` with `skip` and `take`, and `count`. */
  function PageAt(t: Tables, page: int, limit: int, skip: int): Result<AuditPage, Error>
  {
    if skip < 0 then Err(InvalidArgument("skip"))
    else Ok(AuditPage(Window(Newest(t), skip, limit), |t.audit|, page, limit))
  }

  method GetAllAuditLogs(db: Database, page: Option<int>, limit: Option<int>) returns (r: Result<AuditPage, Error>)
    ensures r == GetAllAuditLogsSpec(db.Snapshot(), page, limit)
  {
    var p := if page.Some? then page.value else DEFAULT_PAGE;
    var l := if limit.Some? then limit.value else DEFAULT_LIMIT;
    var skip := (p - 1) * l;
    assert GetAllAuditLogsSpec(db.Snapshot(), page, limit) == PageAt(db.Snapshot(), p, l, skip);
    if skip < 0 {
      return Err(InvalidArgument("skip"));
    }
    var logs := Window(SortDescBy(db.auditLog, Timestamp), skip, l);
    var total := |db.auditLog|;
    r := Ok(AuditPage(logs, total, p, l));
  }

  /**
   * A page is refused exactly when its skip is negative. Otherwise it
   * echoes the page and limit, counts every row, holds at most `|limit|`
   * rows, newest first, each of them a row of the log.
   */
  lemma AuditPageShape(t: Tables, page: int, limit: int)
    ensures GetAllAuditLogsSpec(t, Some(page), Some(limit)).Err? <==> (page - 1) * limit < 0
    ensures var r := GetAllAuditLogsSpec(t, Some(page), Some(limit));
      r.Ok? ==>
        && r.value.total == |t.audit| && r.value.page == page && r.value.limit == limit
        && |r.value.logs| <= (if limit >= 0 then limit else -limit)
        && SortedDesc(r.value.logs, Timestamp)
        && multiset(r.value.logs) <= multiset(t.audit)
  {
    var skip := (page - 1) * limit;
    SpecIsPageAt(t, page, limit, skip);
    PageAtShape(t, page, limit, skip);
  }

  /** With both arguments given, the page is the one at skip `(page - 1) * limit`. */
  lemma SpecIsPageAt(t: Tables, page: int, limit: int, skip: int)
    requires skip == (page - 1) * limit
    ensures GetAllAuditLogsSpec(t, Some(page), Some(limit)) == PageAt(t, page, limit, skip)
  {
  }

  lemma PageAtShape(t: Tables, page: int, limit: int, skip: int)
    ensures PageAt(t, page, limit, skip).Err? <==> skip < 0
    ensures var r := PageAt(t, page, limit, skip);
      r.Ok? ==>
        && r.value.total == |t.audit| && r.value.page == page && r.value.limit == limit
        && |r.value.logs| <= (if limit >= 0 then limit else -limit)
        && SortedDesc(r.value.logs, Timestamp)
        && multiset(r.value.logs) <= multiset(t.audit)
  {
    SortDescByCorrect(t.audit, Timestamp);
    if skip >= 0 {
      WindowSorted(Newest(t), skip, limit, Timestamp);
    }
  }

  /** Without arguments: the fifty newest rows. */
  lemma AuditFirstPage(t: Tables)
    ensures var r := GetAllAuditLogsSpec(t, None, None);
      r.Ok? && r.value.logs == Newest(t)[..Min(50, |t.audit|)] && r.value.page == 1 && r.value.limit == 50
  {
    SortDescByCorrect(t.audit, Timestamp);
  }

  /** Pages `p` and `p + 1` of the same size are consecutive slices of the log, newest first. */
  lemma AuditPagesTile(t: Tables, page: int, limit: int)
    requires page >= 1 && limit >= 1 && 0 <= (page - 1) * limit <= |t.audit|
    ensures GetAllAuditLogsSpec(t, Some(page), Some(limit)).Ok?
    ensures GetAllAuditLogsSpec(t, Some(page + 1), Some(limit)).Ok?
    ensures GetAllAuditLogsSpec(t, Some(page), Some(limit)).value.logs + GetAllAuditLogsSpec(t, Some(page + 1), Some(limit)).value.logs
      == Newest(t)[(page - 1) * limit..Min((page - 1) * limit + 2 * limit, |t.audit|)]
  {
    NumberedPagesTile(t, page, limit);
  }

  /** The same for pages given by number, with the skip computed from it. */
  lemma NumberedPagesTile(t: Tables, page: int, limit: int)
    requires page >= 1 && limit >= 1 && 0 <= (page - 1) * limit <= |t.audit|
    ensures PageNumbered(t, page, limit).Ok? && PageNumbered(t, page + 1, limit).Ok?
    ensures PageNumbered(t, page, limit).value.logs + PageNumbered(t, page + 1, limit).value.logs
      == Newest(t)[(page - 1) * limit..Min((page - 1) * limit + 2 * limit, |t.audit|)]
  {
    NextSkip(page, limit);
    ConsecutivePages(t, page, limit, (page - 1) * limit, ((page + 1) - 1) * limit);
  }

  /** A window and the one skipping `limit` rows further concatenate to the slice they cover. */
  lemma ConsecutivePages(t: Tables, page: int, limit: nat, lo: nat, next: int)
    requires lo <= |t.audit| && next == lo + limit
    ensures var a := PageAt(t, page, limit, lo);
      var b := PageAt(t, page + 1, limit, next);
      a.Ok? && b.Ok? && a.value.logs + b.value.logs == Newest(t)[lo..Min(lo + 2 * limit, |t.audit|)]
  {
    WindowsTile(Newest(t), lo, limit);
  }

  /**
   * The store promises no order among rows with the same timestamp, so two
   * page queries may each break ties their own way. When rows with equal
   * timestamps are equal, any two such orders still give consecutive pages
   * that tile the log, newest first: the page that skips `lo` rows and the
   * next one, cut from orders `o1` and `o2`.
   */
  lemma AuditPagesTileAnyOrder(t: Tables, lo: nat, limit: nat, o1: seq<AuditRow>, o2: seq<AuditRow>)
    requires lo <= |t.audit| && TiesEqual(t.audit, Timestamp)
    requires SortedDesc(o1, Timestamp) && multiset(o1) == multiset(t.audit)
    requires SortedDesc(o2, Timestamp) && multiset(o2) == multiset(t.audit)
    ensures Window(o1, lo, limit) + Window(o2, lo + limit, limit) == Newest(t)[lo..Min(lo + 2 * limit, |t.audit|)]
  {
    NewestUnique(t, o1);
    NewestUnique(t, o2);
    SortDescByCorrect(t.audit, Timestamp);
    WindowsTile(Newest(t), lo, limit);
  }

  /** When rows with equal timestamps are equal, the newest-first order of the log is the only one. */
  lemma NewestUnique(t: Tables, o: seq<AuditRow>)
    requires TiesEqual(t.audit, Timestamp)
    requires SortedDesc(o, Timestamp) && multiset(o) == multiset(t.audit)
    ensures o == Newest(t)
  {
    var s := Newest(t);
    SortDescByCorrect(t.audit, Timestamp);
    TiesEqualPermutation(t.audit, s, Timestamp);
    SortedUnique(s, o, Timestamp);
  }

  /** The page after `p` skips one more limit. */
  lemma NextSkip(p: int, l: int)
    ensures ((p + 1) - 1) * l == (p - 1) * l + l
  {
    MulStep(p, l);
  }

  lemma MulStep(p: int, l: int)
    ensures p * l == (p - 1) * l + l
  {
  }

  /** A negative limit on page 1 gives the oldest rows, still newest first. */
  lemma AuditNegativeLimit(t: Tables, limit: int)
    requires limit < 0
    ensures var r := GetAllAuditLogsSpec(t, Some(1), Some(limit));
      r.Ok? && r.value.logs == Newest(t)[Max(|t.audit| + limit, 0)..]
  {
    SortDescByCorrect(t.audit, Timestamp);
  }
}
