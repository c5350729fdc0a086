/**
 * The front end's route guard (frontend/src/components/protectedRoute.tsx):
 * the children are rendered only for a stored token and a stored role that,
 * upper-cased, is one of the route's allowed roles; otherwise the browser
 * is sent to /login. The two `localStorage` reads are parameters.
 */
module ProtectedRoute {
  import opened Common

  datatype Outcome = RedirectToLogin | RenderChildren

  /** JavaScript truthiness of a `localStorage` value: present and not "". */
  predicate Truthy(v: Option<string>) { v.Some? && v.value != "" }

  function Guard(token: Option<string>, role: Option<string>, allowedRoles: seq<string>): Outcome
  {
    if !Truthy(token) || !Truthy(role) || ToUpperAscii(role.value) !in allowedRoles then RedirectToLogin
    else RenderChildren
  }

  /** The children are rendered exactly for a token, a role, and the role upper-cased among those allowed. */
  lemma GuardRendersExactly(token: Option<string>, role: Option<string>, allowedRoles: seq<string>)
    ensures Guard(token, role, allowedRoles) == RenderChildren <==>
      token.Some? && token.value != "" && role.Some? && role.value != ""
      && exists i :: 0 <= i < |allowedRoles| && allowedRoles[i] == ToUpperAscii(role.value)
  {
  }

  /** A missing (or empty) token or role sends to /login, as does an empty list of allowed roles. */
  lemma GuardRedirects(token: Option<string>, role: Option<string>, allowedRoles: seq<string>)
    ensures !Truthy(token) ==> Guard(token, role, allowedRoles) == RedirectToLogin
    ensures !Truthy(role) ==> Guard(token, role, allowedRoles) == RedirectToLogin
    ensures allowedRoles == [] ==> Guard(token, role, allowedRoles) == RedirectToLogin
  {
  }

  /** Upper-casing is idempotent, so the guard cannot tell a role from its upper-cased form. */
  lemma {:induction false} ToUpperAsciiIdempotent(s: string)
    ensures ToUpperAscii(ToUpperAscii(s)) == ToUpperAscii(s)
  {
    var u := ToUpperAscii(s);
    assert forall i :: 0 <= i < |u| ==> UpperAscii(u[i]) == u[i];
  }

  /** Roles that upper-case alike are treated alike, whatever their case. */
  lemma GuardIgnoresCase(token: Option<string>, r1: string, r2: string, allowedRoles: seq<string>)
    requires r1 != "" && r2 != "" && ToUpperAscii(r1) == ToUpperAscii(r2)
    ensures Guard(token, Some(r1), allowedRoles) == Guard(token, Some(r2), allowedRoles)
  {
  }

  /** A role stored as "doctor" is admitted by ["DOCTOR"]. */
  lemma LowerCaseRoleAdmitted(token: string)
    requires token != ""
    ensures Guard(Some(token), Some("doctor"), ["DOCTOR"]) == RenderChildren
  {
    assert ToUpperAscii("doctor") == "DOCTOR";
  }
}
