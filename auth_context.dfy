/** The AuthProvider of AuthContext.tsx: three state cells, `role`,
    `isAuthenticated` and `isLoading`, changed by login, logout and the
    check run when the provider mounts. The role is any string: the cast to
    UserRole does not check it. */
module AuthContext {
  import opened Common
  import Models
  import Controller

  /** The reply of checkAuthStatus: `authenticated` and the optional role. */
  datatype AuthReply = AuthReply(authenticated: bool, role: Option<string>)

  /** A JavaScript string that is truthy: present and not empty. */
  predicate Truthy(s: Option<string>) {
    s.Some? && s.value != ""
  }

  /** checkAuthStatus: the body of a 200 reply; any failed request reads as
      `{authenticated: false}`. */
  function FetchAuthStatus(r: Controller.Response): (reply: AuthReply)
    ensures !r.Ok? ==> reply == AuthReply(false, None)
  {
    if r.Ok? && r.body.AuthStatus? then AuthReply(r.body.authenticated, r.body.roleClaim)
    else AuthReply(false, None)
  }

  /** A browser holding a login cookie gets a reply the mount check accepts,
      carrying the user's role; one without a session gets a reply it
      rejects. */
  lemma SessionReply(u: Models.User)
    ensures var reply := FetchAuthStatus(Controller.CheckAuth(Some(Controller.ClaimsOf(u))));
            reply.authenticated && Truthy(reply.role) && reply.role == Some(Models.RoleName(u.role))
    ensures FetchAuthStatus(Controller.CheckAuth(None)) == AuthReply(false, None)
  {
  }

  class AuthProvider {
    var role: Option<string>
    var isAuthenticated: bool
    var isLoading: bool

    /** Authenticated exactly when a role is held. */
    ghost predicate Valid()
      reads this
    {
      isAuthenticated <==> role.Some?
    }

    /** The initial state: no role, not authenticated, loading. */
    constructor ()
      ensures Valid()
      ensures role == None && !isAuthenticated && isLoading
    {
      role := None;
      isAuthenticated := false;
      isLoading := true;
    }

    /** login(newRole). */
    method Login(newRole: string)
      modifies this
      ensures Valid()
      ensures role == Some(newRole) && isAuthenticated
      ensures isLoading == old(isLoading)
    {
      role := Some(newRole);
      isAuthenticated := true;
    }

    /** logout(): the state it leaves depends on nothing but `isLoading`,
        so a second call changes nothing. */
    method Logout()
      modifies this
      ensures Valid()
      ensures role == None && !isAuthenticated
      ensures isLoading == old(isLoading)
    {
      role := None;
      isAuthenticated := false;
    }

    /** The check run on mount. `reply` is None when the request throws.
        Loading ends whatever the outcome. */
    method CheckAuth(reply: Option<AuthReply>)
      modifies this
      ensures Valid()
      ensures !isLoading
      ensures isAuthenticated <==> reply.Some? && reply.value.authenticated && Truthy(reply.value.role)
      ensures isAuthenticated ==> role == reply.value.role
    {
      if reply.Some? && reply.value.authenticated && Truthy(reply.value.role) {
        role := reply.value.role;
        isAuthenticated := true;
      } else {
        role := None;
        isAuthenticated := false;
      }
      isLoading := false;
    }
  }
}
