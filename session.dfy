/**
 * The login state controller of src/hooks/useLogin.ts. Its two state cells are
 * `loggedInUsername` (`""`, `undefined` or a name) and `isLoginError`.
 * `onLogin` resets them synchronously (Begin) and overwrites them when the
 * authenticator's promise resolves (Settle). Overlapping attempts are any
 * interleaving of these two events, in the order in which they happen.
 */
module Session {
  import opened Wrappers
  import opened Authenticator

  datatype SessionState = SessionState(loggedInUsername: Option<string>, isLoginError: bool)

  /** The state `useState` starts from: the empty name (not `undefined`) and no error. */
  const Initial := SessionState(Some(""), false)

  /** What happens to the controller: a login attempt begins, or one settles with its response. */
  datatype Event = Begin | Settle(response: LoginResponse)

  /** The error flag is set exactly when the name is `undefined`. */
  predicate Consistent(s: SessionState) {
    s.isLoginError <==> s.loggedInUsername == None
  }

  /** The name is empty, `undefined`, or one the authenticator's table knows. */
  predicate KnownName(s: SessionState) {
    match s.loggedInUsername
    case None => true
    case Some(name) => name == "" || name in KnownUsers
  }

  /** An event the real authenticator can cause: a Begin, or a Settle with a response from its table. */
  predicate FromAuthenticator(e: Event) {
    e.Begin? || FromTable(e.response)
  }

  /** The effect of one event. Neither transition reads the state it replaces. */
  function Step(s: SessionState, e: Event): (r: SessionState)
    ensures Consistent(r)
    ensures e.Begin? ==> r.loggedInUsername == Some("") && !r.isLoginError
    ensures e.Settle? && e.response.LoginSucceeded() ==>
              r.loggedInUsername == Some(e.response.username) && !r.isLoginError
    ensures e.Settle? && !e.response.LoginSucceeded() ==> r.loggedInUsername == None && r.isLoginError
    ensures FromAuthenticator(e) ==> KnownName(r)
  {
    match e
    case Begin => Initial
    case Settle(response) => SessionState(response.Username(), !response.LoginSucceeded())
  }

  /** The state after the events of `es`, in order, starting from `s`. */
  function Replay(s: SessionState, es: seq<Event>): SessionState
    decreases |es|
  {
    if es == [] then s else Replay(Step(s, es[0]), es[1..])
  }

  /**
   * Last-settled-wins: after a non-empty trace the state is what its last event
   * alone makes of any state, whatever came before it and whatever the start.
   */
  lemma {:induction false} LastEventWins(s: SessionState, t: SessionState, es: seq<Event>)
    requires es != []
    ensures Replay(s, es) == Step(t, es[|es| - 1])
    decreases |es|
  {
    if |es| == 1 {
      assert Replay(Step(s, es[0]), es[1..]) == Step(s, es[0]);
    } else {
      LastEventWins(Step(s, es[0]), t, es[1..]);
      assert es[1..][|es[1..]| - 1] == es[|es| - 1];
    }
  }

  /** Consistency holds of every state reachable from a consistent one. */
  lemma {:induction false} ReplayKeepsConsistent(s: SessionState, es: seq<Event>)
    requires Consistent(s)
    ensures Consistent(Replay(s, es))
    decreases |es|
  {
    if es != [] {
      ReplayKeepsConsistent(Step(s, es[0]), es[1..]);
    }
  }

  /** With responses from the real table, only "", `undefined`, "admin" and "kent" are ever shown. */
  lemma {:induction false} ReplayKeepsKnownName(s: SessionState, es: seq<Event>)
    requires KnownName(s)
    requires forall i :: 0 <= i < |es| ==> FromAuthenticator(es[i])
    ensures KnownName(Replay(s, es))
    decreases |es|
  {
    if es != [] {
      assert FromAuthenticator(es[0]);
      ReplayKeepsKnownName(Step(s, es[0]), es[1..]);
    }
  }

  /** A failed attempt followed by a successful one clears the error and shows the name. */
  lemma Recovery(s: SessionState)
    ensures Replay(s, [Begin, Settle(LoginUser("admin", "wrong")), Begin, Settle(LoginUser("admin", "admin"))])
         == SessionState(Some("admin"), false)
  {
  }

  /** A successful attempt followed by a failed one clears the name and sets the error. */
  lemma Regression(s: SessionState)
    ensures Replay(s, [Begin, Settle(LoginUser("admin", "admin")), Begin, Settle(LoginUser("admin", "wrong"))])
         == SessionState(None, true)
  {
  }

  /**
   * A stale response wins: "admin"/"admin" is issued, then "admin"/"wrong";
   * the newer attempt settles first and the older one settles last, so the
   * user ends up logged in although the latest attempt failed.
   */
  lemma StaleResponseWins()
    ensures Replay(Initial, [Begin, Begin, Settle(LoginUser("admin", "wrong")), Settle(LoginUser("admin", "admin"))])
         == SessionState(Some("admin"), false)
  {
  }

  /** The hook's state cells, updated in place by `onLogin` and by its `.then` continuation. */
  class LoginController {
    var loggedInUsername: Option<string>
    var isLoginError: bool

    function State(): SessionState
      reads this
    {
      SessionState(loggedInUsername, isLoginError)
    }

    ghost predicate Valid()
      reads this
    {
      Consistent(State())
    }

    constructor ()
      ensures Valid() && State() == Initial
    {
      loggedInUsername := Some("");
      isLoginError := false;
    }

    /** The synchronous part of `onLogin`: clear the error and the name. */
    method Begin()
      modifies this
      ensures Valid()
      ensures State() == Step(old(State()), Event.Begin)
      ensures loggedInUsername == Some("") && !isLoginError
    {
      isLoginError := false;
      loggedInUsername := Some("");
    }

    /** The `.then` continuation: overwrite both cells from the response, whatever they held. */
    method Settle(response: LoginResponse)
      modifies this
      ensures Valid()
      ensures State() == Step(old(State()), Event.Settle(response))
      ensures loggedInUsername == response.Username() && isLoginError == !response.LoginSucceeded()
    {
      loggedInUsername := response.Username();
      isLoginError := !response.LoginSucceeded();
    }

    /**
     * `onLogin`: Begin, then ask the authenticator. The returned response is the
     * promise's eventual value; the caller hands it to `Settle` when it settles,
     * possibly after other attempts have begun or settled.
     */
    method OnLogin(username: string, password: string) returns (pending: LoginResponse)
      modifies this
      ensures Valid()
      ensures State() == Step(old(State()), Event.Begin)
      ensures pending == LoginUser(username, password)
    {
      Begin();
      pending := LoginUser(username, password);
    }

    /** What the hook returns on a render: reading it changes nothing. */
    method Snapshot() returns (name: Option<string>, error: bool)
      requires Valid()
      ensures name == loggedInUsername && error == isLoginError
      ensures error <==> name == None
    {
      name, error := loggedInUsername, isLoginError;
    }
  }

  /** One attempt issued and settled through the controller ends in the state its response dictates. */
  method AttemptThenSettle(c: LoginController, username: string, password: string)
    modifies c
    ensures c.Valid()
    ensures c.State() == Step(old(c.State()), Settle(LoginUser(username, password)))
  {
    var pending := c.OnLogin(username, password);
    c.Settle(pending);
  }
}
