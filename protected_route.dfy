/** The route guard of ProtectedRoute.tsx: loading, then authentication,
    then role, in that order. */
module ProtectedRoute {
  import opened Common
  import opened Routes
  import AuthContext

  datatype View = Spinner | Redirect(to: string) | Outlet

  function Guard(isAuthenticated: bool, role: Option<string>, isLoading: bool, allowedRoles: seq<string>): (v: View)
    ensures isLoading ==> v == Spinner
    ensures !isLoading && !isAuthenticated ==> v == Redirect(LoginRoute)
    ensures v == Outlet <==>
              !isLoading && isAuthenticated && AuthContext.Truthy(role) && role.value in allowedRoles
    ensures v == Redirect(DashboardRoute) <==>
              !isLoading && isAuthenticated && !(AuthContext.Truthy(role) && role.value in allowedRoles)
  {
    if isLoading then Spinner
    else if !isAuthenticated then Redirect(LoginRoute)
    else if !AuthContext.Truthy(role) || role.value !in allowedRoles then Redirect(DashboardRoute)
    else Outlet
  }

  /** A customer is sent away from the admin panel to the dashboard, which
      lets it in; an admin enters both. */
  lemma RoleRoutes()
    ensures Guard(true, Some("Customer"), false, AllowedRolesOn(AdminRoute)) == Redirect(DashboardRoute)
    ensures Guard(true, Some("Customer"), false, AllowedRolesOn(DashboardRoute)) == Outlet
    ensures Guard(true, Some("Admin"), false, AllowedRolesOn(AdminRoute)) == Outlet
    ensures Guard(true, Some("Admin"), false, AllowedRolesOn(DashboardRoute)) == Outlet
  {
    assert "Customer" != "Admin";
  }
}
