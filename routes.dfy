/** The client-side routes of constants/index.ts and the roles App.tsx lets
    through to each protected one. */
module Routes {
  const LoginRoute: string := "/login"
  const SignUpRoute: string := "/signup"
  const DashboardRoute: string := "/dashboard"
  const AdminRoute: string := "/admin"

  /** The roles of the ProtectedRoute wrapping a route: the dashboard
      admits both roles and the admin panel admins only. */
  function AllowedRolesOn(route: string): seq<string> {
    if route == DashboardRoute then ["Admin", "Customer"]
    else if route == AdminRoute then ["Admin"]
    else []
  }
}
