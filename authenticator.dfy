/**
 * The authenticator of src/functions/login.ts: a closed table of two credential
 * pairs. The Promise it returns always resolves, and to a value that depends
 * only on the two strings, so it is modelled as a total Dafny function.
 */
module Authenticator {
  import opened Wrappers

  /** The two identities the table knows; each one's password is its own name. */
  const KnownUsers: set<string> := {"admin", "kent"}

  /**
   * `LoginResponse`: `{ loginSucceeded: true, username }` or
   * `{ loginSucceeded: false }`, which carries no username.
   */
  datatype LoginResponse = Succeeded(username: string) | Failed {

    predicate LoginSucceeded() {
      Succeeded?
    }

    /** The `username` field as a reader of the response sees it: `undefined` on failure. */
    function Username(): (u: Option<string>)
      ensures u.Some? <==> LoginSucceeded()
      ensures LoginSucceeded() ==> u == Some(username)
    {
      match this
      case Succeeded(name) => Some(name)
      case Failed => None
    }
  }

  /** A response the table can produce: a failure, or a success for a known identity. */
  predicate FromTable(r: LoginResponse) {
    r.Failed? || r.username in KnownUsers
  }

  /** `loginUser`: look the pair up in the table. */
  function LoginUser(username: string, password: string): (r: LoginResponse)
    ensures r.LoginSucceeded() <==> username == password && username in KnownUsers
    ensures r.LoginSucceeded() ==> r.username == username && r.username == password
    ensures FromTable(r)
  {
    if username == "admin" && password == "admin" then
      Succeeded("admin")
    else if username == "kent" && password == "kent" then
      Succeeded("kent")
    else
      Failed
  }

  lemma AdminLogsIn()
    ensures LoginUser("admin", "admin") == Succeeded("admin")
  {
  }

  lemma KentLogsIn()
    ensures LoginUser("kent", "kent") == Succeeded("kent")
  {
  }

  /** Every pair outside the table fails: a wrong password, an unknown user, empty strings. */
  lemma OtherPairsFail(username: string, password: string)
    requires !(username == "admin" && password == "admin")
    requires !(username == "kent" && password == "kent")
    ensures LoginUser(username, password) == Failed
    ensures LoginUser(username, password).Username() == None
  {
  }
}
