/** Where the app sends a user: the launch screen's decision and the
    redirect the login screen makes once signed in. */
module Routing {
  import opened Wrappers
  import opened Domain

  datatype Destination = LocationPicker | AdminHome | CustomerHome | LoginScreen

  /** A signed-in user picks a location first; with one, admins go to the
      admin tabs and everyone else to the customer tabs. */
  function HomeFor(user: User): (d: Destination)
    ensures d == LocationPicker <==> user.location.None?
    ensures d == AdminHome <==> user.location.Some? && user.role == Admin
    ensures d == CustomerHome <==> user.location.Some? && user.role != Admin
  {
    if user.location.None? then LocationPicker
    else if user.role == Admin then AdminHome
    else CustomerHome
  }

  /** The launch screen: no redirect until initialisation has finished and
      nothing is loading; then the login screen unless a user is signed in,
      and that user's home otherwise. */
  function LaunchRoute(initialized: bool, loading: bool, authenticated: bool, user: Option<User>): (r: Option<Destination>)
    ensures r.None? <==> !initialized || loading
    ensures r == Some(LoginScreen) <==> initialized && !loading && (!authenticated || user.None?)
    ensures r.Some? && r.value != LoginScreen ==> authenticated && user.Some? && r.value == HomeFor(user.value)
  {
    if !initialized || loading then None
    else if authenticated && user.Some? then Some(HomeFor(user.value))
    else Some(LoginScreen)
  }

  /** The login screen's redirect once a user is signed in. */
  function LoginRedirect(authenticated: bool, user: Option<User>): (r: Option<Destination>)
    ensures r.Some? <==> authenticated && user.Some?
    ensures r.Some? ==> r.value != LoginScreen
  {
    if authenticated && user.Some? then Some(HomeFor(user.value)) else None
  }

  /** The login screen sends a signed-in user where the launch screen
      would once loading is over. */
  lemma LoginAgreesWithLaunch(user: User)
    ensures LoginRedirect(true, Some(user)) == LaunchRoute(true, false, true, Some(user))
  {
  }
}
