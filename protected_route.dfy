/** The route guard wrapped around every dashboard page. */
module ProtectedRoute {
  import opened Common
  import Sidebar

  datatype Outcome = RedirectToLogin | RedirectToDashboard | RenderOutlet

  /** An empty list of allowed roles is still given; only a missing list lets every role in. */
  function Guard(isAuthenticated: bool, user: Option<SessionUser>, allowedRoles: Option<seq<Role>>): (o: Outcome)
    ensures o == RedirectToLogin <==> !isAuthenticated || user.None?
    ensures o == RedirectToDashboard <==>
      isAuthenticated && user.Some? && allowedRoles.Some? && user.value.role !in allowedRoles.value
    ensures o == RenderOutlet <==>
      isAuthenticated && user.Some? && (allowedRoles.None? || user.value.role in allowedRoles.value)
  {
    if !isAuthenticated || user.None? then RedirectToLogin
    else if allowedRoles.Some? && user.value.role !in allowedRoles.value then RedirectToDashboard
    else RenderOutlet
  }

  /** The application mounts the guard without a role list, so every signed-in user reaches
      every dashboard route. */
  const AppAllowedRoles: Option<seq<Role>> := None

  /** The pages the sidebar hides from role user are still reachable by entering their URL. */
  lemma HiddenLinksStillReachable(u: SessionUser)
    requires u.role == User
    ensures Sidebar.Users !in Sidebar.VisibleItems(u.role)
    ensures Sidebar.UploadLaporan !in Sidebar.VisibleItems(u.role)
    ensures Guard(true, Some(u), AppAllowedRoles) == RenderOutlet
  {
    Sidebar.AdminOnlyLinks(u.role, Sidebar.Users);
    Sidebar.AdminOnlyLinks(u.role, Sidebar.UploadLaporan);
  }
}
