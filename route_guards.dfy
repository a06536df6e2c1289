/**
 * The route guards of the frontend: the admin layout and the protected layout, and the
 * authentication context value they read. A guard renders nothing, a loading placeholder, a
 * redirect (always with replace) or the nested routes.
 */
module RouteGuards {
  import opened Wrappers
  import opened Text
  import Uri

  datatype AuthenticatedUser = AuthenticatedUser(id: int, email: string, authorities: seq<string>)

  /** The fields of the context value; what else a component destructures from it is undefined. */
  datatype AuthContextValue = AuthContextValue(
    token: Option<string>, user: Option<AuthenticatedUser>, userId: Option<int>,
    isAuthenticated: bool, isAuthenticating: bool, isLoadingUser: bool, isAdmin: bool)

  const AdminRole: string := "ROLE_ADMIN"
  const LoginRedirectPrefix: string := "/login?redirect="

  /** The provider's value: authenticated means a non-empty token, admin means the user holds ROLE_ADMIN. */
  function ContextValue(token: Option<string>, user: Option<AuthenticatedUser>, isAuthenticating: bool, isLoadingUser: bool): (v: AuthContextValue)
    ensures v.isAuthenticated <==> token.Some? && token.value != ""
    ensures v.isAdmin <==> user.Some? && AdminRole in user.value.authorities
    ensures v.userId == (if user.Some? then Some(user.value.id) else None)
    ensures v.token == token && v.user == user && v.isAuthenticating == isAuthenticating && v.isLoadingUser == isLoadingUser
  {
    AuthContextValue(token, user, if user.Some? then Some(user.value.id) else None,
      token.Some? && token.value != "", isAuthenticating, isLoadingUser, user.Some? && AdminRole in user.value.authorities)
  }

  /** Reading a boolean property of the context value by name: undefined (None) for a name it does not have. */
  function BoolProperty(v: AuthContextValue, name: string): (r: Option<bool>)
    ensures r.Some? <==> name in {"isAuthenticated", "isAuthenticating", "isLoadingUser", "isAdmin"}
    ensures name == "isLoadingUser" ==> r == Some(v.isLoadingUser)
  {
    if name == "isAuthenticated" then Some(v.isAuthenticated)
    else if name == "isAuthenticating" then Some(v.isAuthenticating)
    else if name == "isLoadingUser" then Some(v.isLoadingUser)
    else if name == "isAdmin" then Some(v.isAdmin)
    else None
  }

  predicate Truthy(b: Option<bool>) {
    b == Some(true)
  }

  datatype Location = Location(pathname: string, search: string, hash: string)

  datatype Screen = Nothing | LoadingPlaceholder | Navigate(to: string) | Outlet

  /** Only a path on this site is kept as the place to come back to; anything else becomes '/'. */
  function SafeRedirect(raw: string): (r: string)
    ensures StartsWith(r, "/")
    ensures StartsWith(raw, "/") ==> r == raw
    ensures !StartsWith(raw, "/") ==> r == "/"
  {
    if StartsWith(raw, "/") then raw else "/"
  }

  /** The login address a visitor is sent to, carrying the current location. */
  function LoginRedirect(location: Location): (to: string)
    ensures StartsWith(to, LoginRedirectPrefix)
  {
    LoginRedirectPrefix + Uri.EncodeUriComponent(SafeRedirect(location.pathname + location.search + location.hash))
  }

  /** The location travels as a single query value: nothing after the prefix can start another parameter or a fragment. */
  lemma LoginRedirectIsOneParameter(location: Location)
    ensures var value := LoginRedirect(location)[|LoginRedirectPrefix|..];
      '&' !in value && '#' !in value && '?' !in value &&
      value == Uri.EncodeUriComponent(SafeRedirect(location.pathname + location.search + location.hash))
  {
    var safe := SafeRedirect(location.pathname + location.search + location.hash);
    Uri.EncodedHasNoSeparators(safe);
    assert LoginRedirect(location)[|LoginRedirectPrefix|..] == Uri.EncodeUriComponent(safe);
  }

  /** A location on this site goes along unchanged, whatever its query and fragment. */
  lemma LocalLocationKept(location: Location)
    requires StartsWith(location.pathname, "/")
    ensures LoginRedirect(location) == LoginRedirectPrefix + Uri.EncodeUriComponent(location.pathname + location.search + location.hash)
  {
    var raw := location.pathname + location.search + location.hash;
    assert raw[..1] == location.pathname[..1];
  }

  /** AdminLayout: nothing while the user loads, login for a visitor, home for a non-admin, the page for an admin. */
  function AdminLayout(isAuthenticated: bool, isLoadingUser: bool, isAdmin: bool, location: Location): (r: Screen)
    ensures isLoadingUser ==> r == Nothing
    ensures !isLoadingUser && !isAuthenticated ==> r == Navigate(LoginRedirect(location))
    ensures !isLoadingUser && isAuthenticated && !isAdmin ==> r == Navigate("/")
    ensures r == Outlet <==> !isLoadingUser && isAuthenticated && isAdmin
  {
    if isLoadingUser then Nothing
    else if !isAuthenticated then Navigate(LoginRedirect(location))
    else if !isAdmin then Navigate("/")
    else Outlet
  }

  /** AdminLayout over the provider's value: only a loaded user with a token and ROLE_ADMIN reaches an admin page. */
  lemma AdminPagesNeedAdminRole(token: Option<string>, user: Option<AuthenticatedUser>, isAuthenticating: bool, isLoadingUser: bool, location: Location)
    ensures var v := ContextValue(token, user, isAuthenticating, isLoadingUser);
      AdminLayout(v.isAuthenticated, v.isLoadingUser, v.isAdmin, location) == Outlet <==>
      !isLoadingUser && token.Some? && token.value != "" && user.Some? && AdminRole in user.value.authorities
  {
  }

  /** The decision both layouts share once the loading flag is known. */
  function Protected(isLoading: bool, isAuthenticated: bool, location: Location): (r: Screen)
    ensures isLoading ==> r == LoadingPlaceholder
    ensures !isLoading && !isAuthenticated ==> r == Navigate(LoginRedirect(location))
    ensures !isLoading && isAuthenticated ==> r == Outlet
  {
    if isLoading then LoadingPlaceholder
    else if !isAuthenticated then Navigate(LoginRedirect(location))
    else Outlet
  }

  /** ProtectedLayout as written: it reads isLoading, which the context value does not have. */
  function ProtectedLayoutAsWritten(v: AuthContextValue, location: Location): (r: Screen)
    ensures r == Protected(Truthy(BoolProperty(v, "isLoading")), v.isAuthenticated, location)
  {
    Protected(Truthy(BoolProperty(v, "isLoading")), v.isAuthenticated, location)
  }

  /** As written, the loading placeholder is never shown, and a signed-in user sees the page while the user still loads. */
  lemma LoadingPlaceholderUnreachable(v: AuthContextValue, location: Location)
    ensures ProtectedLayoutAsWritten(v, location) != LoadingPlaceholder
    ensures v.isLoadingUser && v.isAuthenticated ==> ProtectedLayoutAsWritten(v, location) == Outlet
  {
    assert BoolProperty(v, "isLoading").None?;
  }

  /** ProtectedLayout reading the loading flag the context provides. */
  function ProtectedLayout(v: AuthContextValue, location: Location): (r: Screen)
    ensures v.isLoadingUser ==> r == LoadingPlaceholder
    ensures !v.isLoadingUser && !v.isAuthenticated ==> r == Navigate(LoginRedirect(location))
    ensures !v.isLoadingUser && v.isAuthenticated ==> r == Outlet
  {
    Protected(Truthy(BoolProperty(v, "isLoadingUser")), v.isAuthenticated, location)
  }

  /** Every page the admin layout shows, the protected layout shows too; both send a visitor to the same login address. */
  lemma AdminPagesAreProtected(v: AuthContextValue, location: Location)
    ensures AdminLayout(v.isAuthenticated, v.isLoadingUser, v.isAdmin, location) == Outlet ==> ProtectedLayout(v, location) == Outlet
    ensures !v.isLoadingUser && !v.isAuthenticated ==>
      ProtectedLayout(v, location) == AdminLayout(v.isAuthenticated, v.isLoadingUser, v.isAdmin, location)
    ensures !v.isLoadingUser ==> ProtectedLayout(v, location) == ProtectedLayoutAsWritten(v, location)
  {
    assert BoolProperty(v, "isLoading").None?;
  }
}
