/**
 * The doctor's patient-creation form (frontend/src/components/CreatePatientForm.tsx):
 * the form state, the handlers that edit it, and the body `handleSubmit`
 * sends. React's `setFormData` replaces the state object, so the state is
 * a value (`FormData`) held by the component object; the handlers copy
 * the list they edit into a fresh array, assign one slot, and store it.
 */
module CreatePatientForm {
  import opened Common
  import opened Store
  import DoctorService
  import CreatePatientSchema

  datatype FormData = FormData(
    name: string,
    email: string,
    password: string,
    diagnosis: string,
    notes: seq<string>,
    medications: seq<MedicationText>)

  /** A medication's three inputs. */
  datatype MedicationField = MedName | Dosage | Schedule

  const BLANK_MEDICATION := MedicationText("", "", "")

  /** The state the form starts with and returns to after a successful create. */
  const INITIAL := FormData("", "", "", "", [""], [BLANK_MEDICATION])

  /** `{ ...med, [field]: value }`. */
  function WithField(m: MedicationText, field: MedicationField, value: string): MedicationText
  {
    match field
    case MedName => m.(name := value)
    case Dosage => m.(dosage := value)
    case Schedule => m.(schedule := value)
  }

  /** `note.trim() !== ""`. */
  function NonBlank(note: string): bool { Trim(note) != "" }

  /** `med.name || med.dosage || med.schedule`. */
  function AnyFilled(m: MedicationText): bool { m.name != "" || m.dosage != "" || m.schedule != "" }

  /**
   * `formattedData`: every field of the form as it is (the diagnosis too,
   * even when left empty), the non-blank notes and the medications with
   * something filled in.
   */
  function Submission(f: FormData): DoctorService.CreatePatientInput
  {
    DoctorService.CreatePatientInput(f.name, f.email, f.password, Some(f.diagnosis),
                                     Some(Filter(f.notes, NonBlank)), Some(Filter(f.medications, AnyFilled)))
  }

  class Form {
    var formData: FormData

    constructor ()
      ensures formData == INITIAL
    {
      formData := INITIAL;
    }

    /** `handleNoteChange(index, value)`: the note inputs are those of `formData.notes`. */
    method NoteChange(index: nat, value: string)
      requires index < |formData.notes|
      modifies this
      ensures formData == old(formData).(notes := old(formData.notes)[index := value])
    {
      var notes := formData.notes;
      var updated := new string[|notes|];
      for i := 0 to |notes|
        invariant updated[..i] == notes[..i] && formData == old(formData)
      {
        updated[i] := notes[i];
      }
      assert updated[..] == notes;
      updated[index] := value;
      formData := formData.(notes := updated[..]);
    }

    /** `addNoteField`. */
    method AddNote()
      modifies this
      ensures formData == old(formData).(notes := old(formData.notes) + [""])
    {
      formData := formData.(notes := formData.notes + [""]);
    }

    /** `handleMedicationChange(index, field, value)`. */
    method MedicationChange(index: nat, field: MedicationField, value: string)
      requires index < |formData.medications|
      modifies this
      ensures formData == old(formData).(medications :=
        old(formData.medications)[index := WithField(old(formData.medications)[index], field, value)])
    {
      var meds := formData.medications;
      var updated := new MedicationText[|meds|];
      for i := 0 to |meds|
        invariant updated[..i] == meds[..i] && formData == old(formData)
      {
        updated[i] := meds[i];
      }
      assert updated[..] == meds;
      updated[index] := WithField(meds[index], field, value);
      formData := formData.(medications := updated[..]);
    }

    /** `addMedicationField`. */
    method AddMedication()
      modifies this
      ensures formData == old(formData).(medications := old(formData.medications) + [BLANK_MEDICATION])
    {
      formData := formData.(medications := formData.medications + [BLANK_MEDICATION]);
    }

    /** The success callback's reset. */
    method Reset()
      modifies this
      ensures formData == INITIAL
    {
      formData := INITIAL;
    }

    /** The body `handleSubmit` passes to the mutation; the state is left as it is. */
    method Submit() returns (body: DoctorService.CreatePatientInput)
      ensures body == Submission(formData)
    {
      body := Submission(formData);
    }
  }

  /** Name, e-mail, password and diagnosis go out as typed. */
  lemma SubmissionKeepsFields(f: FormData)
    ensures var b := Submission(f);
      b.name == f.name && b.email == f.email && b.password == f.password && b.diagnosis == Some(f.diagnosis)
  {
  }

  /** The notes sent are exactly the notes with a non-white-space character, each kept as typed. */
  lemma SubmittedNotesExactly(f: FormData)
    ensures var sent := Submission(f).notes;
      && sent.Some?
      && forall n :: n in sent.value <==> n in f.notes && exists i :: 0 <= i < |n| && !IsWhitespace(n[i])
  {
    var sent := Filter(f.notes, NonBlank);
    forall n ensures n in sent <==> n in f.notes && exists i :: 0 <= i < |n| && !IsWhitespace(n[i]) {
      TrimEmptyIff(n);
      if n in sent {
        var k :| 0 <= k < |sent| && sent[k] == n;
        assert NonBlank(sent[k]);
      }
      if n in f.notes && NonBlank(n) {
        var k :| 0 <= k < |f.notes| && f.notes[k] == n;
        assert NonBlank(f.notes[k]);
      }
    }
  }

  /** The medications sent are exactly those with at least one field filled in. */
  lemma SubmittedMedicationsExactly(f: FormData)
    ensures var sent := Submission(f).medications;
      && sent.Some?
      && forall m :: m in sent.value <==> m in f.medications && (m.name != "" || m.dosage != "" || m.schedule != "")
  {
    var sent := Filter(f.medications, AnyFilled);
    forall m ensures m in sent <==> m in f.medications && AnyFilled(m) {
      if m in sent {
        var k :| 0 <= k < |sent| && sent[k] == m;
        assert AnyFilled(sent[k]);
      }
      if m in f.medications && AnyFilled(m) {
        var k :| 0 <= k < |f.medications| && f.medications[k] == m;
        assert AnyFilled(f.medications[k]);
      }
    }
  }

  /** Adding an empty note or an empty medication changes nothing that is sent. */
  lemma AddingBlankFieldsSendsTheSame(f: FormData)
    ensures Submission(f.(notes := f.notes + [""])) == Submission(f)
    ensures Submission(f.(medications := f.medications + [BLANK_MEDICATION])) == Submission(f)
  {
    FilterAppend(f.notes, [""], NonBlank);
    assert [""][1..] == [];
    assert !NonBlank([""][0]);
    assert Filter([""], NonBlank) == [];
    assert Filter(f.notes + [""], NonBlank) == Filter(f.notes, NonBlank);
    FilterAppend(f.medications, [BLANK_MEDICATION], AnyFilled);
    assert [BLANK_MEDICATION][1..] == [];
    assert Filter([BLANK_MEDICATION], AnyFilled) == [];
    assert Filter(f.medications + [BLANK_MEDICATION], AnyFilled) == Filter(f.medications, AnyFilled);
  }

  /** Editing one note keeps the others and the list's length. */
  lemma NoteChangeKeepsOthers(notes: seq<string>, index: nat, value: string)
    requires index < |notes|
    ensures var updated := notes[index := value];
      |updated| == |notes| && updated[index] == value && forall i :: 0 <= i < |notes| && i != index ==> updated[i] == notes[i]
  {
  }

  /** Editing one field of one medication keeps every other field and every other medication. */
  lemma MedicationChangeKeepsOthers(meds: seq<MedicationText>, index: nat, field: MedicationField, value: string)
    requires index < |meds|
    ensures var updated := meds[index := WithField(meds[index], field, value)];
      && |updated| == |meds|
      && (forall i :: 0 <= i < |meds| && i != index ==> updated[i] == meds[i])
      && (field == MedName ==> updated[index] == MedicationText(value, meds[index].dosage, meds[index].schedule))
      && (field == Dosage ==> updated[index] == MedicationText(meds[index].name, value, meds[index].schedule))
      && (field == Schedule ==> updated[index] == MedicationText(meds[index].name, meds[index].dosage, value))
  {
  }

  /**
   * As written, a diagnosis left empty goes out as "", which the server's
   * schema rejects although the diagnosis is optional: whatever else is
   * filled in, such a form cannot create a patient.
   */
  lemma EmptyDiagnosisBlocksSubmission(isEmail: string -> bool, f: FormData)
    requires f.diagnosis == ""
    ensures !CreatePatientSchema.Accepts(isEmail, Submission(f))
  {
    CreatePatientSchema.EmptyDiagnosisRejected(isEmail, Submission(f));
  }

  /** The submission with an empty diagnosis left out of the body. */
  function CorrectedSubmission(f: FormData): DoctorService.CreatePatientInput
  {
    Submission(f).(diagnosis := if f.diagnosis == "" then None else Some(f.diagnosis))
  }

  /**
   * The corrected submission passes the diagnosis check for an empty or a
   * long enough diagnosis, and differs from the written one in nothing else.
   */
  lemma CorrectedSubmissionAcceptsEmptyDiagnosis(f: FormData)
    ensures f.diagnosis == "" ==>
      CreatePatientSchema.DiagnosisOk(CorrectedSubmission(f).diagnosis) && CorrectedSubmission(f).diagnosis == None
    ensures f.diagnosis != "" ==> CorrectedSubmission(f) == Submission(f)
    ensures CorrectedSubmission(f).(diagnosis := Submission(f).diagnosis) == Submission(f)
  {
  }

  /**
   * What the corrected form needs to create a patient: a valid name,
   * e-mail and password, a diagnosis left empty or of three code units or
   * more, and every medication with something filled in filled in
   * completely. Notes never block it, since only the non-blank ones go out.
   */
  lemma CorrectedSubmissionAccepted(isEmail: string -> bool, f: FormData)
    ensures CreatePatientSchema.Accepts(isEmail, CorrectedSubmission(f)) <==>
      && CreatePatientSchema.NameOk(f.name) && isEmail(f.email) && CreatePatientSchema.StrongPassword(f.password)
      && (f.diagnosis == "" || Utf16Length(f.diagnosis) >= 3)
      && forall m :: m in f.medications && AnyFilled(m) ==> CreatePatientSchema.MedicationOk(m)
  {
    var b := CorrectedSubmission(f);
    var notes := Filter(f.notes, NonBlank);
    var meds := Filter(f.medications, AnyFilled);
    assert b.notes == Some(notes) && b.medications == Some(meds);
    forall i | 0 <= i < |notes| ensures Utf16Length(notes[i]) >= 1 {
      var n := notes[i];
      assert NonBlank(n);
      TrimEmptyIff(n);
      CreatePatientSchema.Utf16LengthPositive(n);
    }
    assert CreatePatientSchema.NotesOk(b.notes);
    if forall m :: m in f.medications && AnyFilled(m) ==> CreatePatientSchema.MedicationOk(m) {
      forall i | 0 <= i < |meds| ensures CreatePatientSchema.MedicationOk(meds[i]) {
        assert meds[i] in f.medications && AnyFilled(meds[i]);
      }
    }
    if CreatePatientSchema.MedicationsOk(b.medications) {
      forall m | m in f.medications && AnyFilled(m) ensures CreatePatientSchema.MedicationOk(m) {
        var k :| 0 <= k < |f.medications| && f.medications[k] == m;
        assert AnyFilled(f.medications[k]);
        assert m in meds;
      }
    }
  }
}
