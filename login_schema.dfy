/**
 * The request-body schema of login (backend/src/types/login.type.ts): a
 * password of 8 to 128 code units with no rule on its characters.
 */
module LoginSchema {
  import opened Common
  import CreatePatientSchema
  import ResetPasswordSchema

  datatype LoginBody = LoginBody(email: string, password: string)

  predicate PasswordOk(password: string) { 8 <= Utf16Length(password) <= 128 }

  /** `loginSchema` accepts the body. */
  predicate Accepts(isEmail: string -> bool, body: LoginBody)
  {
    isEmail(body.email) && PasswordOk(body.password)
  }

  /** Every password the reset schema accepts passes the login schema. */
  lemma ResetPasswordsLogIn(isEmail: string -> bool, body: ResetPasswordSchema.ResetBody)
    requires ResetPasswordSchema.Accepts(isEmail, body)
    ensures Accepts(isEmail, LoginBody(body.email, body.newPassword))
  {
    CreatePatientSchema.PasswordIssuesExact(body.newPassword);
  }

  /** Any eight characters from the BMP pass, though "aaaaaaaa" is not a strong password. */
  lemma {:induction false} AnyEightCharacters(password: string)
    requires |password| == 8 && forall i :: 0 <= i < |password| ==> password[i] as int <= 0xFFFF
    ensures PasswordOk(password)
  {
    ResetPasswordSchema.CodeOfSixCharacters(password[2..]);
    assert Utf16Length(password[1..]) == 1 + Utf16Length(password[1..][1..]) && password[1..][1..] == password[2..];
  }

  /** A password of eight lower-case letters logs in but would not pass the reset schema. */
  lemma WeakPasswordLogsIn()
    ensures PasswordOk("aaaaaaaa")
    ensures !CreatePatientSchema.StrongPassword("aaaaaaaa")
  {
    var p := "aaaaaaaa";
    assert forall i :: 0 <= i < |p| ==> p[i] == 'a';
    AnyEightCharacters(p);
    CreatePatientSchema.FailedRuleExact(p, CreatePatientSchema.Uppercase);
  }
}
