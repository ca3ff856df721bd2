/** The process-wide authentication state the login page reads and updates. */
module Session {
  import opened Wrappers

  /** The identity stored in the session: role, email and display name only. */
  datatype UserIdentity = UserIdentity(role: string, email: string, name: string)

  /** The `auth` slice of the store. */
  class AuthState {
    var isAuthenticated: bool
    var user: Option<UserIdentity>
    var loading: bool

    /** Assumed initial state of the store's `auth` slice: unauthenticated, no user, not loading. */
    constructor ()
      ensures !isAuthenticated && user == None && !loading
    {
      isAuthenticated, user, loading := false, None, false;
    }

    /** The `setUser` action: the session now holds `u` and is authenticated. */
    method SetUser(u: UserIdentity)
      modifies this
      ensures isAuthenticated && user == Some(u)
      ensures loading == old(loading)
    {
      isAuthenticated, user := true, Some(u);
    }
  }
}
