/** The root route of the `main` blueprint (`blueprints/main.py`). */
module MainRoutes {
  import opened Wrappers
  import opened Decorators

  /** Where `index` redirects. */
  datatype Target = AdminDashboard | ParentSelectYear | Login

  /**
   * `index`: an authenticated admin goes to the dashboard; otherwise a
   * session whose role is `parent` goes to year selection; everyone else to
   * the login page.
   */
  function Index(u: CurrentUser, sessionRole: Option<string>): (r: Target)
    ensures r == AdminDashboard <==> u.Authenticated() && u.role == "admin"
    ensures r == ParentSelectYear <==> !(u.Authenticated() && u.role == "admin") && sessionRole == Some("parent")
  {
    if u.Authenticated() && u.role == "admin" then AdminDashboard
    else if sessionRole.Some? && sessionRole.value == "parent" then ParentSelectYear
    else Login
  }

  /**
   * `index` sends a visitor to a page whose guard lets them in, and to the
   * login page exactly when both the admin and the parent guard would
   * refuse them.
   */
  lemma {:induction false} IndexAgreesWithGuards(u: CurrentUser, sessionRole: Option<string>)
    ensures Index(u, sessionRole) == AdminDashboard ==> AdminRequired(u) == CallView
    ensures Index(u, sessionRole) == ParentSelectYear ==> ParentRequired(sessionRole) == CallView
    ensures Index(u, sessionRole) == Login <==> AdminRequired(u).ToLogin? && ParentRequired(sessionRole).ToLogin?
  {
    var r := Index(u, sessionRole);
    var a := AdminRequired(u);
    var p := ParentRequired(sessionRole);
    assert r == Login <==> r != AdminDashboard && r != ParentSelectYear;
  }

  /** A logged-in user who is not an admin but holds a parent session goes to year selection, not to login. */
  lemma NonAdminParentSession(role: string, isPrimary: bool)
    requires role != "admin"
    ensures Index(LoggedIn(role, isPrimary), Some("parent")) == ParentSelectYear
  {
  }
}
