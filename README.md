# Session authentication: React client and Flask service

This project models the two halves of a small login application in Dafny.

**The client** (`ReactApp/src/App.js`) is one React component. It holds five
pieces of state:

- `currentPage`: login, register or home;
- `user`;
- `formData`: username, email and password;
- `error`;
- `loading`.

It probes the session once on mount. It has handlers for field edits, login,
registration, logout, submission and the login/register toggle. It renders a
loading screen, a dashboard or the login/register form.

**The service** (`FlaskApp/app.py`) keeps a `users` table and a session per
client. It serves `register`, `login`, `logout` and `check_auth`.

Files:

- `wrappers.dfy`: `Option`.
- `client.dfy`: module `Client`. The whole component state is a `State` value,
  and each handler is a function from the old state, and the outcome of the
  `fetch` it awaits, to the new state. `Render` is the render branch. Around
  these sit lemmas about edit sequences, the toggle, logout, and traces of
  events the screen offers. The class `Controller` has the component's five
  fields. Its handler methods update them setter by setter. Each method is
  proved equal to the corresponding state function.
- `server.dfy`: module `Server`. `ServerState` holds the table, the
  AUTOINCREMENT counter and a map from client to session. Each endpoint is a
  step function returning the new state and the response. It also has the
  table invariant, lemmas about request sequences, and round-trip lemmas. The
  class `App` holds the same state in fields. Its methods run the handlers and
  are proved equal to the step functions.
- `end_to_end.dfy`: module `EndToEnd`. A server response reaches the client
  the way `fetch` delivers it: `ok` means a 2xx status. A submission reaches
  the server as the JSON the client built. The lemmas are about a page load,
  a login, a registration and a logout against this server.

Inputs that stand in for what the code cannot see:

- Every `fetch` is an `Outcome` value. It is either `TransportFailure` or
  `Reply(ok, body)`; `body` is `None` when `response.json()` rejects.
- The password digest is any function of salt and password (`Digest`). The
  random salt is a parameter of `register`.
- The client whose cookie comes with a request is a `ClientId` parameter.

## Model

| member | source | states |
|---|---|---|
| `Client.Form.Set` | ReactApp/src/App.js:37-40 | the named field takes the new value; the other two keep theirs |
| `Client.AfterCheckAuth` | ReactApp/src/App.js:19-34 | loading is false after every probe outcome; an authenticated reply sets the user to the returned one and the page to home; any other outcome (negative, transport error, JSON error) keeps user and page; error and form never change |
| `Client.AfterInputChange` | ReactApp/src/App.js:36-42 | exactly the named field of the form becomes the value, the other two are unchanged, the error becomes empty, page/user/loading unchanged |
| `Client.SubmitRequest` | ReactApp/src/App.js:113-120 | the login body is sent iff the page is login, and it carries only username and password; otherwise the register body with all three form fields |
| `Client.AfterSubmit` | ReactApp/src/App.js:44-97 | an ok reply sets the user to the returned user, the page to home, the form to empty and the error to empty; a reply that is not ok sets the error to the server's `error` and keeps form, user and page; a transport or JSON failure sets the fixed "Connection error. Please try again." and keeps form, user and page |
| `Client.AfterLogout` | ReactApp/src/App.js:99-111 | a response with any status clears the user, goes to the login page and empties the form; a rejected fetch changes nothing at all |
| `Client.AfterToggle` | ReactApp/src/App.js:231-235 | login becomes register and every other page becomes login; error and form are cleared; user and loading kept |
| `Client.Render` | ReactApp/src/App.js:122-244 | loading wins over everything; the dashboard of the user is shown iff not loading, the page is home and a user is set; otherwise the form, in login mode iff the page is login, with the email field iff the page is register, with the error box iff the error is non-empty |
| `Client.ToggleTwice` | ReactApp/src/App.js:231-235 | toggling twice from login or register restores the page with an empty form and no error |
| `Client.EditsKeepLastWrite` | ReactApp/src/App.js:36-42 | after any sequence of edits each field holds the last value written to it (or its old value), the error is empty if there was an edit, and page/user/loading are unchanged |
| `Client.InitialCoherent` | ReactApp/src/App.js:5-13 | the initial state is coherent and renders the loading screen |
| `Client.ApplyKeepsCoherent` | ReactApp/src/App.js:15-120 | every event offered by the current screen keeps the state coherent: no error while loading, and a known user only on the home page with no error |
| `Client.RunKeepsCoherent` | ReactApp/src/App.js:122-172 | along every trace of offered events the state stays coherent, so once loaded the dashboard is shown exactly when a user is known |
| `Client.LogoutFromDashboard` | ReactApp/src/App.js:99-111 | from the dashboard a resolved logout shows the empty login form with no error box, while a rejected logout leaves the dashboard on screen |
| `Client.Controller.constructor` | ReactApp/src/App.js:5-13 | the component starts on the login page, with no user, an empty form, no error, and loading |
| `Client.Controller.CheckAuth` | ReactApp/src/App.js:19-34 | the fields after the probe are `AfterCheckAuth` of the fields before |
| `Client.Controller.HandleInputChange` | ReactApp/src/App.js:36-42 | the fields after the edit are `AfterInputChange` of the fields before |
| `Client.Controller.SettleSubmission` | ReactApp/src/App.js:58-70 | from a cleared error, the try/catch of a submission gives `AfterSubmit` of the fields before |
| `Client.Controller.HandleLogin` | ReactApp/src/App.js:44-71 | sends exactly the username and password typed; the new fields are `AfterSubmit` of the old |
| `Client.Controller.HandleRegister` | ReactApp/src/App.js:73-97 | sends the whole form; the new fields are `AfterSubmit` of the old |
| `Client.Controller.HandleSubmit` | ReactApp/src/App.js:113-120 | dispatches to login iff the page is login, otherwise to register; the request sent is `SubmitRequest` of the old state |
| `Client.Controller.HandleLogout` | ReactApp/src/App.js:99-111 | the fields after logout are `AfterLogout` of the fields before |
| `Client.Controller.Toggle` | ReactApp/src/App.js:231-235 | the fields after the toggle are `AfterToggle` of the fields before |
| `Server.CheckOwnHash` | FlaskApp/app.py:80 | a password checks against a hash generated from it, whatever the salt and digest |
| `Server.FindByUsername` | FlaskApp/app.py:76-77 | a found row is in the table and has the username; nothing is found iff no row has it |
| `Server.FindById` | FlaskApp/app.py:102-103 | a found row is in the table and has the id; nothing is found iff no row has it |
| `Server.FindByUsernameExact` | FlaskApp/app.py:21 | in a table with unique usernames the lookup returns the one row with that username |
| `Server.FindByIdExact` | FlaskApp/app.py:20 | in a table with unique ids the lookup returns the one row with that id |
| `Server.RegisterStep` | FlaskApp/app.py:33-63 | a missing or empty field gives 400 "All fields are required" and changes nothing; a username or email already in the table gives 400 "Username or email already exists" and changes nothing; otherwise (and only then) 201: exactly one row is appended under a fresh id, the client's session gets that id and username, and the reply has id, username and email but no password; consistency is preserved |
| `Server.LoginStep` | FlaskApp/app.py:65-90 | a missing or empty field gives 400 and changes nothing; in a valid table the reply is 200 iff a row has the username and its hash checks against the password, and then the session gets that row's id and username; with both fields filled, every other case (unknown user or wrong password alike) is 401 "Invalid username or password" with nothing changed; the table never changes |
| `Server.LogoutStep` | FlaskApp/app.py:92-95 | always 200; this client's session is gone; other clients' sessions and the table are unchanged |
| `Server.CheckAuthReply` | FlaskApp/app.py:97-112 | always 200; authenticated with the row's id, username and email iff the session's user id names an existing row; in a consistent state, iff the client has a session |
| `Server.Serve` | FlaskApp/app.py:33-112 | every endpoint keeps the table valid and the sessions pointing at rows, and only ever appends rows |
| `Server.ServeAllKeepsConsistent` | FlaskApp/app.py:19-23 | over any sequence of requests ids stay unique and increasing, usernames and emails stay unique, sessions keep naming existing rows, and the old table remains a prefix |
| `Server.RegisterThenLogin` | FlaskApp/app.py:43-90 | after a successful registration, a login from any client with the same username and password returns 200 with the new user |
| `Server.RegisterThenCheckAuth` | FlaskApp/app.py:48-110 | after a successful registration, the same client's check_auth reports the new user |
| `Server.LogoutThenCheckAuth` | FlaskApp/app.py:92-112 | after logout the same client's check_auth reports not authenticated, whatever came before |
| `Server.RegisterLogoutCheckAuth` | FlaskApp/app.py:33-112 | register, then logout, then check_auth from one client yields authenticated false |
| `Server.App.constructor` | FlaskApp/app.py:9-27 | the service starts over a valid existing table with no sessions |
| `Server.App.Register` | FlaskApp/app.py:33-63 | the new state and the response are those of `RegisterStep`; consistency is kept |
| `Server.App.Login` | FlaskApp/app.py:65-90 | the new state and the response are those of `LoginStep`; consistency is kept |
| `Server.App.Logout` | FlaskApp/app.py:92-95 | the new state and the response are those of `LogoutStep`; consistency is kept |
| `Server.App.CheckAuth` | FlaskApp/app.py:97-112 | the response is `CheckAuthReply` of the current state, which is not changed |
| `EndToEnd.PageLoadSettles` | ReactApp/src/App.js:15-34 | against a consistent server, a page load ends with loading false and a coherent state: the dashboard of the session's row if the client has a session, else the empty login form |
| `EndToEnd.LoginFromForm` | ReactApp/src/App.js:44-71 | submitting the login form shows the dashboard iff both fields are filled and a row with that username accepts the password, and then the dashboard shows that row and the session points at it; otherwise the server is unchanged and the form stays as typed with the server's message |
| `EndToEnd.RegisterFromForm` | ReactApp/src/App.js:73-97 | submitting the register form shows the dashboard iff all fields are filled and neither username nor email is taken, and then it shows the new user and a reload shows the same; otherwise the server is unchanged and the form stays as typed with the server's message |
| `EndToEnd.LogoutThenReload` | ReactApp/src/App.js:99-111 | logging out of the dashboard shows the empty login form, and so does a page load afterwards |

## Left out

- The `fetch` calls themselves, URLs, headers, `credentials: 'include'` and JSON serialisation. Each call is an `Outcome` input.
- `console.error` logging on the probe and logout failure paths: it has no effect on the state.
- React's scheduling of `useState`/`useEffect`, stale closures, and submissions that overlap in flight. Each handler is atomic here; the probe runs once, while the loading screen is up.
- JSX markup and CSS, beyond which screen is rendered and what the form shows (mode, email field, error box, field values).
- Client bodies whose `user` is not a `{id, username, email}` object, or whose `error` is not a string. A missing `error` is the empty string, because `undefined` renders like `""`.
- SQLite connections, cursors and transactions, and werkzeug's hashing algorithm. The table is a sequence of rows and the digest is an arbitrary function.
- `fetchone` without `ORDER BY` returns some matching row. The model returns the first, which in a valid table is the only one.
- Request bodies that are not a JSON object, and fields holding non-string JSON values. A field is either absent/null or a string.
- The random `secret_key`, cookie and CORS configuration, `session.permanent` and session lifetime, and `app.run`. The only trace of the fresh secret key is that the service starts with no sessions.
- The `/health` endpoint: it returns a constant and touches no state.

## Behaviours of the code worth knowing

- `Client.AfterLogout`: a rejected logout `fetch` leaves the state, and so the dashboard, as it was.
- `Client.AfterCheckAuth`: a reply with `authenticated` set but no user goes to the home page with no user, which renders the form with neither the login title nor the email field. The service never sends such a reply (`EndToEnd.PageLoadSettles`).
- `Client.AfterToggle`: the toggle has no guard of its own; it is out of reach on the dashboard only because the link is not rendered there (`Client.Enabled`).
- `Server.RegisterStep`: a duplicate username or email gets status 400.
