/**
 * The access decorators (`decorators.py`). Each either calls the wrapped
 * view or flashes a message of the given category and redirects to the
 * login page; the view is never called on refusal.
 */
module Decorators {
  import opened Wrappers

  /** Flask-Login's `current_user`: anonymous, or a logged-in user with a role and the primary flag. */
  datatype CurrentUser = Anonymous | LoggedIn(role: string, isPrimary: bool)
  {
    predicate Authenticated() { this.LoggedIn? }
  }

  /** What a decorated route does: call the view, or flash and redirect to `auth.login`. */
  datatype Guard = CallView | ToLogin(category: string)

  /** `admin_required`: an authenticated user whose role is `admin`. */
  function AdminRequired(u: CurrentUser): (g: Guard)
    ensures g == CallView <==> u.Authenticated() && u.role == "admin"
    ensures g.ToLogin? ==> g.category == "danger"
  {
    if !u.Authenticated() || u.role != "admin" then ToLogin("danger") else CallView
  }

  /** `primary_admin_required`: an authenticated user with the primary flag, whatever the role. */
  function PrimaryAdminRequired(u: CurrentUser): (g: Guard)
    ensures g == CallView <==> u.Authenticated() && u.isPrimary
    ensures g.ToLogin? ==> g.category == "danger"
  {
    if !u.Authenticated() || !u.isPrimary then ToLogin("danger") else CallView
  }

  /** `parent_required`: the session's `role` entry, if any, is `parent`; the login state is not consulted. */
  function ParentRequired(sessionRole: Option<string>): (g: Guard)
    ensures g == CallView <==> sessionRole == Some("parent")
    ensures g.ToLogin? ==> g.category == "warning"
  {
    if sessionRole.None? || sessionRole.value != "parent" then ToLogin("warning") else CallView
  }

  /**
   * The primary-admin check does not look at the role: a primary user whose
   * role is not `admin` passes it but not `admin_required`, and an admin
   * that is not primary passes only `admin_required`.
   */
  lemma GuardsIndependent()
    ensures PrimaryAdminRequired(LoggedIn("parent", true)) == CallView
    ensures AdminRequired(LoggedIn("parent", true)).ToLogin?
    ensures AdminRequired(LoggedIn("admin", false)) == CallView
    ensures PrimaryAdminRequired(LoggedIn("admin", false)).ToLogin?
  {
  }

  /** Anonymous visitors pass only the parent check, and only with a parent session. */
  lemma AnonymousOnlyParent(sessionRole: Option<string>)
    ensures AdminRequired(Anonymous).ToLogin? && PrimaryAdminRequired(Anonymous).ToLogin?
    ensures ParentRequired(sessionRole) == CallView <==> sessionRole == Some("parent")
  {
  }
}
