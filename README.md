# Login demo: authenticator, login state controller, view router, quote rotation

A Dafny model of the logic of a small React application that guards two views
behind a username/password check.

- **Authenticator** (`Authenticator`, `authenticator.dfy`): `loginUser` looks a
  pair up in a closed table of two entries, ("admin", "admin") and
  ("kent", "kent"), and answers `Succeeded(username)` or `Failed`. The promise
  always resolves and its value depends only on the two strings, so the model
  is a total function; the `Promise` wrapper is dropped.
- **Login state controller** (`Session`, `session.dfy`): the two state cells of
  `useLogin` become the fields of the class `LoginController`. `loggedInUsername`
  is `Option<string>`, so that `""` (`Some("")`) and `undefined` (`None`) stay
  distinct. `onLogin` is split into `Begin`, the synchronous reset, and `Settle`,
  the `.then` continuation. `OnLogin` performs `Begin` and returns the response
  the promise will resolve to; the caller passes it to `Settle` later. Overlapping
  attempts are therefore any interleaving of `Begin` and `Settle` calls. The pure
  functions `Step` and `Replay` give the meaning of one event and of a trace of
  events. The methods are proved against them, and the race behaviour
  (last-settled-wins) is proved about `Replay`.
- **View router** (`Router`, `router.dfy`): the conditional in `App` is the pure
  function `Route` from the controller's state to one of three views. The
  admin-panel branch uses JavaScript truthiness, so `""` and `undefined` both
  give the login form.
- **Quote rotation** (`Quotes`, `quotes.dfy`): `useKCDQuote`'s index is the field
  of the class `QuoteCursor`, and `nextQuote` is a method that advances it modulo
  the three quotes. `Next` and `Advance` are its specification, with lemmas for
  wrap-around and full cycles.

Two details of the code shape the model:

- A new attempt sets the name to `""`, not `undefined`; only a failed response
  gives `undefined`. So `Begin` gives `Some("")` and a failed `Settle` gives `None`.
- `App` tests the name's truthiness, so the empty name `""` shows the login form,
  not the admin panel.

## Model

| member | source | states |
|---|---|---|
| `Authenticator.LoginResponse.Username` | src/functions/login.ts:1-3 | a response carries a username exactly when `loginSucceeded` is true |
| `Authenticator.LoginUser` | src/functions/login.ts:5-18 | success exactly when the username equals the password and is one of the two known identities; on success the returned name is the input name; every response lies in the table |
| `Authenticator.AdminLogsIn` | src/functions/login.ts:10-11 | ("admin", "admin") succeeds as "admin" |
| `Authenticator.KentLogsIn` | src/functions/login.ts:12-13 | ("kent", "kent") succeeds as "kent" |
| `Authenticator.OtherPairsFail` | src/functions/login.ts:14-15 | every other pair, empty strings and wrong passwords included, fails and carries no username |
| `Session.Step` | src/hooks/useLogin.ts:10-16 | Begin leaves the name `""` and no error, whatever the prior state; a successful Settle shows its username without error; a failed Settle leaves the name `undefined` with the error set; the error flag is set exactly when the name is `undefined`; responses from the table leave only known names |
| `Session.LastEventWins` | src/hooks/useLogin.ts:13-16 | last-settled-wins: the state after a non-empty trace of Begin/Settle events is what its last event alone makes of any state |
| `Session.ReplayKeepsConsistent` | src/hooks/useLogin.ts:11-15 | every trace keeps "the error flag is set exactly when the name is `undefined`" |
| `Session.ReplayKeepsKnownName` | src/hooks/useLogin.ts:13-15 | with responses from the real table, the name is only ever `""`, `undefined`, "admin" or "kent" |
| `Session.Recovery` | src/hooks/useLogin.test.tsx:49-68 | a failed attempt followed by a successful one clears the error and shows "admin" |
| `Session.Regression` | src/hooks/useLogin.test.tsx:70-89 | a successful attempt followed by a failed one clears the name and sets the error |
| `Session.StaleResponseWins` | src/hooks/useLogin.ts:13-16 | an older successful attempt that settles after a newer failed one leaves the user logged in |
| `Session.LoginController.constructor` | src/hooks/useLogin.ts:5-8 | the controller starts with the name `""` (not `undefined`) and no error |
| `Session.LoginController.Begin` | src/hooks/useLogin.ts:11-12 | clears the error and sets the name to `""`, which is `Step` for a Begin event |
| `Session.LoginController.Settle` | src/hooks/useLogin.ts:13-16 | overwrites both cells from the response alone, which is `Step` for a Settle event |
| `Session.LoginController.OnLogin` | src/hooks/useLogin.ts:10-17 | performs Begin and returns the authenticator's answer for the pair, to be settled later |
| `Session.LoginController.Snapshot` | src/hooks/useLogin.ts:19-23 | reading the hook's state changes nothing, and the error flag is set exactly when the name is `undefined` |
| `Session.AttemptThenSettle` | src/hooks/useLogin.test.tsx:23-47 | an attempt that settles with nothing in between ends in the state its credential pair dictates, whatever the state before |
| `Router.Route` | src/App.tsx:14-20 | exactly one view: quotes for "kent"; the admin panel carrying the name for any other defined non-empty name; otherwise the login form carrying the error flag |
| `Router.RouteAfterBegin` | src/App.tsx:18-19 | right after an attempt begins, the login form shows without an error |
| `Router.RouteAfterFailure` | src/App.tsx:18-19 | after a failed attempt settles, the login form shows the error |
| `Router.RouteAfterSuccess` | src/App.tsx:14-17 | a settled "kent" login shows the quotes; a settled "admin" login shows the admin panel for "admin" |
| `Router.AdminPanelOnlyForAdmin` | src/App.tsx:14-20 | with responses from the real table, every reachable view is the quotes, the admin panel for "admin", or the login form, and the form shows the error only when the name is `undefined` |
| `Quotes.Next` | src/hooks/useKCDQuote.ts:12-14 | one advance stays in range and moves to the following quote, or from the last back to the first |
| `Quotes.Advance` | src/hooks/useKCDQuote.ts:13 | any number of advances keeps the index in range |
| `Quotes.AdvanceShifts` | src/hooks/useKCDQuote.ts:13 | `n` advances from `i` reach `(i + n) mod 3` |
| `Quotes.FullCycle` | src/hooks/useKCDQuote.test.ts:42-55 | as many advances as there are quotes return to the starting index |
| `Quotes.QuoteCursor.constructor` | src/hooks/useKCDQuote.ts:10 | the index starts at 0, so the current quote is the first |
| `Quotes.QuoteCursor.NextQuote` | src/hooks/useKCDQuote.ts:12-14 | the index moves to `Next` of the old index and the current quote follows it |

`Quotes.QuoteCursor.CurrentQuote` (src/hooks/useKCDQuote.ts:17) is the indexing
itself and is read in the contracts above. `Quotes.Rotate` follows the hook's
tests (src/hooks/useKCDQuote.test.ts:7-55) as a client of the class. Determinism
and totality of `loginUser` and of the router hold because they are Dafny
functions without preconditions.

## Left out

- Promises, `.then` and React's batching and re-render scheduling: an attempt
  settles when the caller calls `Settle`, in an order the caller chooses.
- `Session.LoginController.Settle`: the two setter calls of the continuation are
  one step. A render between them is possible where promise callbacks are not
  batched, and it would show `(undefined, false)` after a failure, or the name with
  the error still set when a stale success settles after a failure. That render is
  not modelled, so `Consistent` and `Session.LoginController.Snapshot`'s "error
  exactly when `undefined`" hold of settled states only.
- React hook mechanics (`useState`, `useCallback`, `useRef`, `useEffect`): state
  cells are class fields.
- `Quotes.QuoteCursor.NextQuote`: advances are sequential; the stale closure of
  `nextQuote` (it reads the `quoteIndex` of the render it was created in) is not
  modelled, so two calls between renders count as two advances here.
- src/components/login/Login.tsx: form rendering, its controlled inputs, its local
  `loginFailed` copy of the error flag and the one-time `console.log` hint are
  user interface and I/O.
- src/components/kcd/KCD.tsx and src/components/AdminPanel/AdminPanel.tsx: markup
  over values the model already has.
- A rejecting authenticator: the table never rejects, and a rejection would be
  unhandled in the source.
