/**
 The guard around the signed-in pages: a redirect effect while nobody is
 signed in, and a placeholder in place of the page until a user is known.
 */
module PrivateRoute {
  import opened Values
  import MyServicesPage

  /** What the guard renders: the "Checking authentication..." spinner or the
      wrapped page. */
  datatype View = Spinner | Page

  /** The effect: once the session check is over and nobody is signed in,
      go to the login page. */
  function RedirectsToLogin(user: Option<Row>, loading: bool): (go: bool)
    ensures go <==> !loading && user.None?
  {
    !loading && user.None?
  }

  /** The render: the spinner while loading or signed out, the page
      otherwise. */
  function Render(user: Option<Row>, loading: bool): (v: View)
    ensures v == Page ==> user.Some? && !loading
    ensures user.Some? && !loading ==> v == Page
  {
    if loading || user.None? then Spinner else Page
  }

  /** The page is never shown to a visitor who is being sent to the login
      page, and while the session is being checked nothing is redirected and
      nothing is shown. */
  lemma {:induction false} NeverBoth(user: Option<Row>, loading: bool)
    ensures RedirectsToLogin(user, loading) ==> Render(user, loading) == Spinner
    ensures loading ==> !RedirectsToLogin(user, loading) && Render(user, loading) == Spinner
    ensures Render(user, loading) == Spinner || !RedirectsToLogin(user, loading)
  {
  }

  /** In every auth state exactly one of three things holds: the visitor is
      redirected, the page is shown, or the guard waits. */
  lemma {:induction false} ThreeOutcomes(user: Option<Row>, loading: bool)
    ensures var go, v := RedirectsToLogin(user, loading), Render(user, loading);
            (go && v == Spinner) || (!go && v == Page) || (!go && v == Spinner && loading)
  {
  }

  /** The guard and the provider's service list redirect in exactly the same
      auth states, and the list loads exactly when a user is known. */
  lemma {:induction false} GuardAgreesWithMyServices(user: Option<Row>, loading: bool)
    ensures RedirectsToLogin(user, loading) <==> MyServicesPage.MountEffect(user, loading) == MyServicesPage.RedirectToLogin
    ensures Render(user, loading) == Page ==> MyServicesPage.MountEffect(user, loading) == MyServicesPage.LoadServices
  {
  }
}
