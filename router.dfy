/**
 * The view choice of src/App.tsx: the quotes view for "kent", the admin panel
 * for any other truthy name, and otherwise the login form with the error flag.
 */
module Router {
  import opened Wrappers
  import opened Authenticator
  import opened Session

  datatype View = QuotesView | AdminView(username: string) | LoginView(isLoginError: bool)

  /** JavaScript truthiness of a `string | undefined`: defined and non-empty. */
  predicate Truthy(name: Option<string>) {
    name.Some? && name.value != ""
  }

  function Route(s: SessionState): (v: View)
    ensures v.QuotesView? <==> s.loggedInUsername == Some("kent")
    ensures v.AdminView? <==> (s.loggedInUsername.Some? && s.loggedInUsername.value !in {"", "kent"})
    ensures v.AdminView? ==> s.loggedInUsername == Some(v.username)
    ensures v.LoginView? <==> s.loggedInUsername in {None, Some("")}
    ensures v.LoginView? ==> v.isLoginError == s.isLoginError
  {
    if s.loggedInUsername == Some("kent") then QuotesView
    else if Truthy(s.loggedInUsername) then AdminView(s.loggedInUsername.value)
    else LoginView(s.isLoginError)
  }

  /** Right after an attempt begins, the login form shows without an error. */
  lemma RouteAfterBegin(s: SessionState)
    ensures Route(Step(s, Begin)) == LoginView(false)
  {
  }

  /** After a failed attempt settles, the login form shows the error. */
  lemma RouteAfterFailure(s: SessionState, username: string, password: string)
    requires LoginUser(username, password) == Failed
    ensures Route(Step(s, Settle(LoginUser(username, password)))) == LoginView(true)
  {
  }

  /** A settled login as "kent" shows the quotes; as "admin", the admin panel greeting "admin". */
  lemma RouteAfterSuccess(s: SessionState)
    ensures Route(Step(s, Settle(LoginUser("kent", "kent")))) == QuotesView
    ensures Route(Step(s, Settle(LoginUser("admin", "admin")))) == AdminView("admin")
  {
  }

  /**
   * With responses from the real table, every reachable view is the quotes,
   * the admin panel for "admin", or the login form: never a panel for a stranger.
   * The form shows the error only when the name is `undefined`.
   */
  lemma {:induction false} AdminPanelOnlyForAdmin(es: seq<Event>)
    requires forall i :: 0 <= i < |es| ==> FromAuthenticator(es[i])
    ensures Route(Replay(Initial, es)) in {QuotesView, AdminView("admin"), LoginView(false), LoginView(true)}
    ensures Route(Replay(Initial, es)) == LoginView(true) ==> Replay(Initial, es).loggedInUsername == None
  {
    ReplayKeepsKnownName(Initial, es);
    ReplayKeepsConsistent(Initial, es);
  }
}
