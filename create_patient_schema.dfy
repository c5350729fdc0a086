/**
 * The request-body schema of patient creation
 * (backend/src/types/createPatient.type.ts), as the predicates its zod
 * checks amount to. Lengths are JavaScript lengths (UTF-16 code units);
 * `z.email()` is the library's own format and is a parameter here. The
 * password rule is also the reset schema's.
 */
module CreatePatientSchema {
  import opened Common
  import opened Store
  import DoctorService

  /** The seven checks of the password chain, in their order. */
  datatype PasswordRule = MinLength | MaxLength | Lowercase | Uppercase | Digit | Special | NoSpace

  const PASSWORD_RULES: seq<PasswordRule> := [MinLength, MaxLength, Lowercase, Uppercase, Digit, Special, NoSpace]

  /** The message the schema gives each check. */
  function Message(r: PasswordRule): string
  {
    match r
    case MinLength => "Password must be at least 8 characters long"
    case MaxLength => "Password must be at most 128 characters long"
    case Lowercase => "Password must contain at least one lowercase letter"
    case Uppercase => "Password must contain at least one uppercase letter"
    case Digit => "Password must contain at least one number"
    case Special => "Password must contain at least one special character"
    case NoSpace => "Password must not contain spaces"
  }

  /** `/[a-z]/` finds a match. */
  predicate HasLower(s: string) { exists i :: 0 <= i < |s| && 'a' <= s[i] <= 'z' }

  /** `/[A-Z]/` finds a match. */
  predicate HasUpper(s: string) { exists i :: 0 <= i < |s| && 'A' <= s[i] <= 'Z' }

  /** `/[0-9]/` finds a match. */
  predicate HasDigit(s: string) { exists i :: 0 <= i < |s| && '0' <= s[i] <= '9' }

  predicate IsAsciiAlnum(c: char) { 'a' <= c <= 'z' || 'A' <= c <= 'Z' || '0' <= c <= '9' }

  /** `/[^a-zA-Z0-9]/` finds a match (a character outside the BMP is one too: its surrogates match). */
  predicate HasSpecial(s: string) { exists i :: 0 <= i < |s| && !IsAsciiAlnum(s[i]) }

  /** `/^\S+$/` matches: at least one character and no white space. */
  predicate NoSpaces(s: string) { |s| > 0 && forall i :: 0 <= i < |s| ==> !IsWhitespace(s[i]) }

  /** What a password check tests. */
  predicate Holds(r: PasswordRule, p: string)
  {
    match r
    case MinLength => Utf16Length(p) >= 8
    case MaxLength => Utf16Length(p) <= 128
    case Lowercase => HasLower(p)
    case Uppercase => HasUpper(p)
    case Digit => HasDigit(p)
    case Special => HasSpecial(p)
    case NoSpace => NoSpaces(p)
  }

  function Fails(p: string): PasswordRule -> bool
  {
    (r: PasswordRule) => !Holds(r, p)
  }

  /** The checks a password fails, in the chain's order; none of them stops the ones after it. */
  function FailedRules(p: string): seq<PasswordRule>
  {
    Filter(PASSWORD_RULES, Fails(p))
  }

  /** The messages zod reports for a password. */
  function PasswordIssues(p: string): (issues: seq<string>)
    ensures |issues| == |FailedRules(p)|
  {
    var failed := FailedRules(p);
    seq(|failed|, i requires 0 <= i < |failed| => Message(failed[i]))
  }

  /** The password passes every check. */
  predicate StrongPassword(p: string)
  {
    PasswordIssues(p) == []
  }

  /** A check is reported exactly when it fails, and then with its own message. */
  lemma FailedRuleExact(p: string, r: PasswordRule)
    ensures r in FailedRules(p) <==> !Holds(r, p)
    ensures r in FailedRules(p) ==> Message(r) in PasswordIssues(p)
  {
    var failed := FailedRules(p);
    if !Holds(r, p) {
      var k := match r
        case MinLength => 0 case MaxLength => 1 case Lowercase => 2 case Uppercase => 3
        case Digit => 4 case Special => 5 case NoSpace => 6;
      assert PASSWORD_RULES[k] == r;
      assert Fails(p)(PASSWORD_RULES[k]);
    }
    if r in failed {
      var i :| 0 <= i < |failed| && failed[i] == r;
      assert Fails(p)(failed[i]);
      assert PasswordIssues(p)[i] == Message(r);
    }
  }

  /** A strong password is one that meets all seven checks. */
  lemma PasswordIssuesExact(p: string)
    ensures StrongPassword(p) <==> forall r :: Holds(r, p)
    ensures StrongPassword(p) <==>
      Utf16Length(p) >= 8 && Utf16Length(p) <= 128 && HasLower(p) && HasUpper(p) && HasDigit(p) && HasSpecial(p) && NoSpaces(p)
  {
    var failed := FailedRules(p);
    if failed != [] {
      FailedRuleExact(p, failed[0]);
    }
    if exists r :: !Holds(r, p) {
      var r :| !Holds(r, p);
      FailedRuleExact(p, r);
    }
    assert (&& Holds(MinLength, p) && Holds(MaxLength, p) && Holds(Lowercase, p) && Holds(Uppercase, p)
            && Holds(Digit, p) && Holds(Special, p) && Holds(NoSpace, p))
      ==> forall r :: Holds(r, p);
  }

  /** A strong password has 4 to 128 characters (at least 8 code units) and no white space. */
  lemma StrongPasswordLength(p: string)
    requires StrongPassword(p)
    ensures 4 <= |p| <= 128 && forall i :: 0 <= i < |p| ==> !IsWhitespace(p[i])
  {
    PasswordIssuesExact(p);
    Utf16LengthBounds(p);
  }

  /** `z.string().min(3).max(30)`. */
  predicate NameOk(name: string) { 3 <= Utf16Length(name) <= 30 }

  /** `z.string().min(3).optional()`: absent, or at least 3 code units; a present "" fails. */
  predicate DiagnosisOk(diagnosis: Option<string>) { diagnosis.None? || Utf16Length(diagnosis.value) >= 3 }

  /** Every `{ note }` has a non-empty note. */
  predicate NotesOk(notes: Option<seq<string>>)
  {
    notes.None? || forall i :: 0 <= i < |notes.value| ==> Utf16Length(notes.value[i]) >= 1
  }

  predicate MedicationOk(m: MedicationText)
  {
    Utf16Length(m.name) >= 1 && Utf16Length(m.dosage) >= 1 && Utf16Length(m.schedule) >= 1
  }

  predicate MedicationsOk(medications: Option<seq<MedicationText>>)
  {
    medications.None? || forall i :: 0 <= i < |medications.value| ==> MedicationOk(medications.value[i])
  }

  /** `createPatientSchema` accepts the body. */
  predicate Accepts(isEmail: string -> bool, body: DoctorService.CreatePatientInput)
  {
    && NameOk(body.name)
    && isEmail(body.email)
    && StrongPassword(body.password)
    && DiagnosisOk(body.diagnosis)
    && NotesOk(body.notes)
    && MedicationsOk(body.medications)
  }

  /** One code unit or more is the same as a non-empty string. */
  lemma {:induction false} Utf16LengthPositive(s: string)
    ensures Utf16Length(s) >= 1 <==> s != []
  {
    Utf16LengthBounds(s);
  }

  /**
   * An accepted body has a name of 2 to 30 characters, a diagnosis that is
   * absent or of 2 characters or more, and no empty note or medication text.
   */
  lemma AcceptedBody(isEmail: string -> bool, body: DoctorService.CreatePatientInput)
    requires Accepts(isEmail, body)
    ensures 2 <= |body.name| <= 30
    ensures body.diagnosis.Some? ==> |body.diagnosis.value| >= 2
    ensures body.notes.Some? ==> forall i :: 0 <= i < |body.notes.value| ==> body.notes.value[i] != []
    ensures body.medications.Some? ==> forall i :: 0 <= i < |body.medications.value| ==>
      var m := body.medications.value[i];
      m.name != [] && m.dosage != [] && m.schedule != []
  {
    Utf16LengthBounds(body.name);
    if body.diagnosis.Some? { Utf16LengthBounds(body.diagnosis.value); }
    if body.notes.Some? {
      forall i | 0 <= i < |body.notes.value| ensures body.notes.value[i] != [] {
        Utf16LengthPositive(body.notes.value[i]);
      }
    }
    if body.medications.Some? {
      forall i | 0 <= i < |body.medications.value|
        ensures var m := body.medications.value[i]; m.name != [] && m.dosage != [] && m.schedule != []
      {
        var m := body.medications.value[i];
        Utf16LengthPositive(m.name);
        Utf16LengthPositive(m.dosage);
        Utf16LengthPositive(m.schedule);
      }
    }
  }

  /** A present but empty diagnosis is rejected, though the field is optional. */
  lemma EmptyDiagnosisRejected(isEmail: string -> bool, body: DoctorService.CreatePatientInput)
    requires body.diagnosis == Some("")
    ensures !Accepts(isEmail, body)
  {
  }
}
