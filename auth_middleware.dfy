/**
 * handlers/middleware/auth.go: the two route guards. RequireLogin only looks at the username
 * cookie; RequireRole also wants a role cookie whose value matches one of the allowed roles
 * up to ASCII letter case, and then hands that value on to the handler as `user_role`.
 */
module AuthMiddleware {
  import opened Wrappers
  import opened GoText
  import opened Http
  import Admin

  const LoginRedirect: string := "/login?error=You must be logged in to access this page"
  const PermissionRedirect: string := "/dashboard?error=You do not have the required permissions"

  /**
   * What a guard does with a request: redirect it, or call the next handler, having set
   * `user_role` in the request context when `userRole` is Some.
   */
  datatype Decision = Redirect(location: string) | Next(userRole: Option<string>)

  /** RequireLogin: the request goes on exactly when the username cookie is present and non-empty. */
  function RequireLogin(usernameCookie: Option<string>): (d: Decision)
    ensures d.Next? <==> SignedIn(usernameCookie)
    ensures d.Redirect? ==> d.location == LoginRedirect
    ensures d.Next? ==> d.userRole.None?
  {
    if SignedIn(usernameCookie) then Next(None) else Redirect(LoginRedirect)
  }

  /** Some allowed role equals `role` up to ASCII letter case. */
  predicate Allowed(roles: seq<string>, role: string)
  {
    exists i :: 0 <= i < |roles| && EqualFold(role, roles[i])
  }

  /**
   * RequireRole(roles): a missing username sends the request to the login page; a missing or
   * empty role cookie, or a role that matches none of `roles`, to the dashboard. Otherwise the
   * handler runs with the cookie's role, unchanged in case, as `user_role`.
   */
  method RequireRole(roles: seq<string>, usernameCookie: Option<string>, roleCookie: Option<string>)
    returns (d: Decision)
    ensures !SignedIn(usernameCookie) ==> d == Redirect(LoginRedirect)
    ensures SignedIn(usernameCookie) && !(SignedIn(roleCookie) && Allowed(roles, roleCookie.value)) ==>
              d == Redirect(PermissionRedirect)
    ensures d.Next? <==> SignedIn(usernameCookie) && SignedIn(roleCookie) && Allowed(roles, roleCookie.value)
    ensures d.Next? ==> d.userRole == Some(roleCookie.value)
  {
    if !SignedIn(usernameCookie) {
      return Redirect(LoginRedirect);
    }
    if !SignedIn(roleCookie) {
      return Redirect(PermissionRedirect);
    }
    var hasRequiredRole := false;
    var userRole := roleCookie.value;
    var i := 0;
    while i < |roles|
      invariant 0 <= i <= |roles|
      invariant hasRequiredRole ==> Allowed(roles, userRole)
      invariant !hasRequiredRole ==> forall j :: 0 <= j < i ==> !EqualFold(userRole, roles[j])
    {
      if EqualFold(userRole, roles[i]) {
        hasRequiredRole := true;
        break;
      }
      i := i + 1;
    }
    if !hasRequiredRole {
      return Redirect(PermissionRedirect);
    }
    d := Next(Some(userRole));
  }

  /** EqualFold is equality after lower-casing. */
  lemma EqualFoldIsLowerEquality(a: string, b: string)
    ensures EqualFold(a, b) <==> ToLower(a) == ToLower(b)
  {
    if ToLower(a) == ToLower(b) {
      assert |a| == |ToLower(a)| == |ToLower(b)| == |b|;
      forall i | 0 <= i < |a| ensures LowerRune(a[i]) == LowerRune(b[i]) {
        assert ToLower(a)[i] == ToLower(b)[i];
      }
    }
  }

  /** Whether a role is allowed depends only on its lower-case form. */
  lemma AllowedIgnoresCase(roles: seq<string>, a: string, b: string)
    requires EqualFold(a, b)
    ensures Allowed(roles, a) <==> Allowed(roles, b)
  {
    EqualFoldIsLowerEquality(a, b);
    if Allowed(roles, a) {
      var i :| 0 <= i < |roles| && EqualFold(a, roles[i]);
      EqualFoldIsLowerEquality(a, roles[i]);
      EqualFoldIsLowerEquality(b, roles[i]);
      assert EqualFold(b, roles[i]);
    }
    if Allowed(roles, b) {
      var i :| 0 <= i < |roles| && EqualFold(b, roles[i]);
      EqualFoldIsLowerEquality(b, roles[i]);
      EqualFoldIsLowerEquality(a, roles[i]);
      assert EqualFold(a, roles[i]);
    }
  }

  /**
   * The guard and the handlers disagree on case: a role cookie "admin" passes
   * RequireRole(["Admin"]), but the admin handlers compare the role exactly and refuse it.
   */
  lemma LowerCaseAdminPassesGuardOnly()
    ensures Allowed(["Admin"], "admin")
    ensures !RoleIn(Some("admin"), Admin.StaffRoles)
  {
    assert EqualFold("admin", ["Admin"][0]);
  }
}
