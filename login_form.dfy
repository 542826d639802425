/** The login form of Login.tsx: the `loginState` cell moving from idle to
    submitting and on to success or error, and the redirect by role. */
module LoginForm {
  import opened Common
  import opened Routes
  import Models
  import AuthContext
  import ProtectedRoute

  const InvalidCredentialsMessage: string := "Invalid credentials"

  datatype LoginState = Idle | Submitting | Success(role: string) | Error(message: string)

  /** The role in the server's reply to loginUser; None when the request
      throws. */
  datatype LoginReply = LoginReply(role: Option<string>)

  /** Where a role is sent: the admin panel for "Admin", else the dashboard. */
  function RedirectFor(role: string): (route: string)
    ensures route == AdminRoute <==> role == "Admin"
    ensures route == AdminRoute || route == DashboardRoute
  {
    if role == "Admin" then AdminRoute else DashboardRoute
  }

  /** What the component renders: a redirect when the context already holds
      a session or the state is success, else the form (None). */
  function RedirectOf(isAuthenticated: bool, role: Option<string>, state: LoginState): (r: Option<string>)
    ensures isAuthenticated && AuthContext.Truthy(role) ==> r == Some(RedirectFor(role.value))
    ensures !(isAuthenticated && AuthContext.Truthy(role)) && state.Success? ==> r == Some(RedirectFor(state.role))
    ensures r.None? <==> !(isAuthenticated && AuthContext.Truthy(role)) && !state.Success?
  {
    if isAuthenticated && AuthContext.Truthy(role) then Some(RedirectFor(role.value))
    else if state.Success? then Some(RedirectFor(state.role))
    else None
  }

  /** The role names the server sends lead to a route whose guard lets that
      role in, so the redirect does not bounce. */
  lemma RedirectAdmits(r: Models.UserRole)
    ensures var name := Models.RoleName(r);
            ProtectedRoute.Guard(true, Some(name), false, AllowedRolesOn(RedirectFor(name))) == ProtectedRoute.Outlet
    ensures RedirectFor(Models.RoleName(r)) == (if r == Models.Admin then AdminRoute else DashboardRoute)
  {
  }

  class Form {
    var loginState: LoginState

    constructor ()
      ensures loginState == Idle
    {
      loginState := Idle;
    }

    /** handleFormSubmit: an invalid form is refused without a request; a
        valid one starts onSubmit, which first moves to submitting. The
        result says whether the request is sent. */
    method HandleFormSubmit(isValid: bool) returns (sent: bool)
      modifies this
      ensures sent == isValid
      ensures !isValid ==> loginState == Error(InvalidCredentialsMessage)
      ensures isValid ==> loginState == Submitting
    {
      if !isValid {
        loginState := Error(InvalidCredentialsMessage);
        return false;
      }
      loginState := Submitting;
      sent := true;
    }

    /** The rest of onSubmit once the reply is in: a reply with a role logs
        the context in with it; anything else is the one generic error. */
    method CompleteSubmit(reply: Option<LoginReply>, auth: AuthContext.AuthProvider)
      modifies this, auth
      ensures loginState.Success? || loginState == Error(InvalidCredentialsMessage)
      ensures loginState.Success? <==> reply.Some? && AuthContext.Truthy(reply.value.role)
      ensures loginState.Success? ==>
                && loginState.role == reply.value.role.value
                && auth.role == reply.value.role && auth.isAuthenticated && auth.Valid()
                && auth.isLoading == old(auth.isLoading)
      ensures !loginState.Success? ==> unchanged(auth)
    {
      if reply.None? || !AuthContext.Truthy(reply.value.role) {
        loginState := Error(InvalidCredentialsMessage);
        return;
      }
      var role := reply.value.role.value;
      auth.Login(role);
      loginState := Success(role);
    }
  }
}
