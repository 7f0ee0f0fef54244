/**
 * The route guard in front of the account and admin pages: while the
 * session is being restored it shows a spinner; a visitor without a session
 * is sent to a login page that will bring them back; a signed-in customer is
 * kept out of the admin pages; everyone else sees the page.
 */
module RouteGuard {
  import opened Wrappers

  const LoginPath: string := "/login"
  const AdminLoginPath: string := "/admin/login"
  const HomePath: string := "/"

  /**
   * What the guard renders. A redirect replaces the current history entry;
   * `from` is the location handed to the login page, when there is one.
   */
  datatype Access = Spinner | Redirect(to: string, from: Option<string>) | Render

  /**
   * The session flags the guard reads: signed in when both the user and the
   * access token are known, admin when that user is staff.
   */
  datatype Session = Session(isLoading: bool, isAuthenticated: bool, isUserAdmin: bool)

  function SessionOf(isLoading: bool, user: Option<bool>, hasToken: bool): (s: Session)
    ensures s.isLoading == isLoading
    ensures s.isAuthenticated <==> user.Some? && hasToken
    ensures s.isUserAdmin <==> user == Some(true)
  {
    Session(isLoading, user.Some? && hasToken, user.Some? && user.value)
  }

  /** ProtectedRoute's decision for the location `pathname`; `adminOnly` is false unless the route says otherwise. */
  function Decide(session: Session, adminOnly: bool, pathname: string): (r: Access)
    ensures session.isLoading <==> r.Spinner?
    ensures !session.isLoading && !session.isAuthenticated ==>
              r == Redirect(if adminOnly then AdminLoginPath else LoginPath, Some(pathname))
    ensures !session.isLoading && session.isAuthenticated && adminOnly && !session.isUserAdmin ==>
              r == Redirect(HomePath, None)
    ensures r.Render? <==> !session.isLoading && session.isAuthenticated && (!adminOnly || session.isUserAdmin)
  {
    if session.isLoading then Spinner
    else if !session.isAuthenticated then Redirect(if adminOnly then AdminLoginPath else LoginPath, Some(pathname))
    else if adminOnly && !session.isUserAdmin then Redirect(HomePath, None)
    else Render
  }

  /**
   * An admin page is only ever rendered for a signed-in staff user, and the
   * guard never sends anyone back to the page it is guarding unless that
   * page is the home page.
   */
  lemma AdminPagesNeedStaff(isLoading: bool, user: Option<bool>, hasToken: bool, pathname: string)
    ensures Decide(SessionOf(isLoading, user, hasToken), true, pathname).Render? ==>
              user == Some(true) && hasToken && !isLoading
    ensures Decide(SessionOf(isLoading, user, hasToken), true, pathname).Redirect? ==>
              Decide(SessionOf(isLoading, user, hasToken), true, pathname).to in {AdminLoginPath, HomePath}
  {
  }

  /**
   * Signing in is all a visitor needs on a customer page: once the session
   * has loaded with a user and a token, the page renders whatever the user's
   * staff flag, and before that the visitor is sent to the customer login
   * with the page to come back to.
   */
  lemma CustomerPageAfterLogin(user: Option<bool>, hasToken: bool, pathname: string)
    ensures var r := Decide(SessionOf(false, user, hasToken), false, pathname);
      (r.Render? <==> user.Some? && hasToken) && (!r.Render? ==> r == Redirect(LoginPath, Some(pathname)))
  {
  }

  /** An admin route is never more permissive than the same route without the flag. */
  lemma AdminOnlyIsStricter(session: Session, pathname: string)
    ensures Decide(session, true, pathname).Render? ==> Decide(session, false, pathname).Render?
    ensures Decide(session, true, pathname).Spinner? <==> Decide(session, false, pathname).Spinner?
  {
  }
}
