/**
 * The route guard (web/src/components/auth/RequireAuth.tsx): what a
 * protected route renders for a given session state.
 */
module RequireAuth {
  import opened Wrappers
  import opened Types
  import opened AuthContext

  /** The page unauthenticated visitors are sent to. */
  const UnauthenticatedPath: string := "/unauthenticated"

  /** The router location the guard was asked to render. */
  datatype Location = Location(pathname: string, search: string, hash: string)

  /** What the guard renders. */
  datatype Guard =
    | Navigate(to: string, replace: bool, from: Location)  // `<Navigate to replace state={{ from }} />`
    | Spinner                                              // the "Verifying authentication..." screen
    | Children                                             // the protected page

  /** `RequireAuth`: the marker is checked first, then loading, then authentication. */
  function Decide(isAuthenticated: bool, isLoading: bool, hasAuthFlag: bool, location: Location): (g: Guard)
    ensures !hasAuthFlag ==> g.Navigate?
    ensures g.Spinner? <==> hasAuthFlag && isLoading
    ensures g.Children? <==> hasAuthFlag && !isLoading && isAuthenticated
    ensures g.Navigate? <==> !hasAuthFlag || (!isLoading && !isAuthenticated)
    ensures g.Navigate? ==> g.to == UnauthenticatedPath && g.replace && g.from == location
  {
    if !hasAuthFlag then Navigate(UnauthenticatedPath, true, location)
    else if isLoading then Spinner
    else if !isAuthenticated then Navigate(UnauthenticatedPath, true, location)
    else Children
  }

  /** The guard applied to a session. */
  function Guarding(auth: AuthProvider, location: Location): Guard
    reads auth
  {
    Decide(auth.isAuthenticated, auth.isLoading, auth.hasAuthFlag, location)
  }

  /** A protected page is only shown while a user is held. */
  lemma ChildrenHaveUser(auth: AuthProvider, location: Location)
    requires auth.Valid()
    ensures Guarding(auth, location).Children? ==> auth.user.Some?
  {
  }

  /**
   * A visit to a protected page from a fresh load: the first render, and the
   * render once the mount effect has settled with the `/auth/me` outcome `me`.
   */
  method VisitAfterLoad(storage: map<string, string>, me: Result<UserResponse, HttpError>, location: Location)
    returns (first: Guard, settled: Guard)
    ensures first == if GetAuthFlag(storage) then Spinner else Navigate(UnauthenticatedPath, true, location)
    ensures !GetAuthFlag(storage) ==> settled == Navigate(UnauthenticatedPath, true, location)
    ensures GetAuthFlag(storage) && me.Success? ==> settled == Children
    ensures GetAuthFlag(storage) && me.Failure? ==> settled == Navigate(UnauthenticatedPath, true, location)
  {
    var auth := new AuthProvider(storage);
    first := Guarding(auth, location);
    auth.Mount(me);
    settled := Guarding(auth, location);
  }

  /**
   * A fresh load (whose user check, if one is made, has the outcome
   * `onLoad`), then a call of the session's `login`, then opening a
   * protected page.
   */
  method VisitAfterLogin(storage: map<string, string>, onLoad: Result<UserResponse, HttpError>,
                         loginCall: Result<(), HttpError>, me: Result<UserResponse, HttpError>,
                         location: Location)
    returns (signedIn: Result<bool, HttpError>, settled: Guard)
    ensures loginCall.Failure? ==> signedIn == Failure(loginCall.error)
    ensures loginCall.Success? ==> signedIn == Success(me.Success?)
    ensures settled == Children <==> loginCall.Success? && me.Success?
    ensures settled != Children ==> settled == Navigate(UnauthenticatedPath, true, location)
  {
    var auth := new AuthProvider(storage);
    auth.Mount(onLoad);
    signedIn := auth.Login(loginCall, me);
    settled := Guarding(auth, location);
  }
}
