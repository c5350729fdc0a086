/**
 * The request-body schema of the password reset
 * (backend/src/types/resetPassword.type.ts). Its password chain is check
 * for check and message for message the one of patient creation, so it is
 * `CreatePatientSchema.StrongPassword` here.
 */
module ResetPasswordSchema {
  import opened Common
  import CreatePatientSchema

  datatype ResetBody = ResetBody(email: string, code: string, newPassword: string)

  /** `z.string().min(6).max(6)`: six code units, of any kind. */
  predicate CodeOk(code: string) { Utf16Length(code) == 6 }

  /** `passwordResetSchema` accepts the body. */
  predicate Accepts(isEmail: string -> bool, body: ResetBody)
  {
    isEmail(body.email) && CodeOk(body.code) && CreatePatientSchema.StrongPassword(body.newPassword)
  }

  /** The body is accepted exactly when the e-mail passes, the code has six code units and the new password every check. */
  lemma AcceptsExactly(isEmail: string -> bool, body: ResetBody)
    ensures var p := body.newPassword;
      Accepts(isEmail, body) <==>
        && isEmail(body.email) && Utf16Length(body.code) == 6
        && 8 <= Utf16Length(p) <= 128
        && CreatePatientSchema.HasLower(p) && CreatePatientSchema.HasUpper(p) && CreatePatientSchema.HasDigit(p)
        && CreatePatientSchema.HasSpecial(p) && CreatePatientSchema.NoSpaces(p)
  {
    CreatePatientSchema.PasswordIssuesExact(body.newPassword);
  }

  /** A code of six characters from the BMP passes, whatever the characters are. */
  lemma {:induction false} CodeOfSixCharacters(code: string)
    requires |code| == 6 && forall i :: 0 <= i < |code| ==> code[i] as int <= 0xFFFF
    ensures CodeOk(code)
  {
    var s := code;
    assert Utf16Length(s[5..]) == 1;
    assert Utf16Length(s[4..]) == 1 + Utf16Length(s[4..][1..]) && s[4..][1..] == s[5..];
    assert Utf16Length(s[3..]) == 1 + Utf16Length(s[3..][1..]) && s[3..][1..] == s[4..];
    assert Utf16Length(s[2..]) == 1 + Utf16Length(s[2..][1..]) && s[2..][1..] == s[3..];
    assert Utf16Length(s[1..]) == 1 + Utf16Length(s[1..][1..]) && s[1..][1..] == s[2..];
  }

  /** The code's digits are not enforced: "abcdef" is accepted. */
  lemma CodeDigitsNotEnforced()
    ensures CodeOk("abcdef")
  {
    CodeOfSixCharacters("abcdef");
  }

  /** A code passes only with six characters at most and three at least. */
  lemma CodeLength(code: string)
    requires CodeOk(code)
    ensures 3 <= |code| <= 6
  {
    Utf16LengthBounds(code);
  }
}
