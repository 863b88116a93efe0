/**
 * The authentication endpoints of the Flask service (FlaskApp/app.py).
 *
 * State: the `users` table (rows with an auto-increment id, a unique
 * username, a unique email and a password hash) and the session of each
 * client. The endpoints `register`, `login`, `logout` and `check_auth` are
 * step functions over `ServerState` that return the new state and the
 * response; the class `App` holds the same state in fields and runs the
 * handlers as methods proved to agree with those functions.
 */
module Server {
  import opened Wrappers

  // ---------------------------------------------------------------------------
  // Password hashing

  /**
   * The hashing algorithm is not modelled: a digest is any function of the
   * salt and the password. The salt is random in the source and an input here.
   */
  type Digest = (string, string) -> string

  datatype PasswordHash = PasswordHash(salt: string, digest: string)

  /** `generate_password_hash` with the salt it drew. */
  function GeneratePasswordHash(d: Digest, password: string, salt: string): PasswordHash
  {
    PasswordHash(salt, d(salt, password))
  }

  /** `check_password_hash`: re-hash with the stored salt and compare. */
  predicate CheckPasswordHash(d: Digest, h: PasswordHash, password: string)
  {
    h.digest == d(h.salt, password)
  }

  /** The one property of hashing the model relies on: a password checks against its own hash. */
  lemma CheckOwnHash(d: Digest, password: string, salt: string)
    ensures CheckPasswordHash(d, GeneratePasswordHash(d, password, salt), password)
  {
  }

  // ---------------------------------------------------------------------------
  // Data

  /** A row of the `users` table. */
  datatype Row = Row(id: int, username: string, email: string, password: PasswordHash)

  /** The user object of a reply: `{id, username, email}`, never the password. */
  datatype UserInfo = UserInfo(id: int, username: string, email: string)

  function Public(row: Row): UserInfo
  {
    UserInfo(row.id, row.username, row.email)
  }

  /** What a signed-in session holds: `user_id` and `username`. */
  datatype SessionData = SessionData(userId: int, username: string)

  /** Identifies the client whose session cookie comes with a request. */
  type ClientId = nat

  /**
   * The table, the next value of its AUTOINCREMENT counter, and the session
   * of every client that has one.
   */
  datatype ServerState = ServerState(rows: seq<Row>, nextId: int, sessions: map<ClientId, SessionData>)

  /** A JSON request field: `None` when the key is absent or null. */
  type JsonField = Option<string>

  datatype RegisterForm = RegisterForm(username: JsonField, email: JsonField, password: JsonField)
  datatype Credentials = Credentials(username: JsonField, password: JsonField)

  datatype Reply =
    | ErrorReply(error: string)
    | UserReply(message: string, user: UserInfo)
    | AuthReply(authenticated: bool, current: Option<UserInfo>)
    | MessageReply(message: string)

  datatype Response = Response(status: int, reply: Reply)

  /** The result of one request: the state after it and the response sent. */
  datatype StepResult = StepResult(state: ServerState, response: Response)

  const AllFieldsRequired := "All fields are required"
  const AlreadyExists := "Username or email already exists"
  const CredentialsRequired := "Username and password are required"
  const InvalidCredentials := "Invalid username or password"

  /** Python truthiness of a string field: present and not empty. */
  predicate Present(v: JsonField)
  {
    v.Some? && v.value != ""
  }

  // ---------------------------------------------------------------------------
  // Invariants

  /**
   * The table's constraints: ids are below the AUTOINCREMENT counter and
   * increase along the table (so they are unique), and usernames and emails
   * are each unique.
   */
  predicate TableValid(rows: seq<Row>, nextId: int)
  {
    && (forall i :: 0 <= i < |rows| ==> rows[i].id < nextId)
    && (forall i, j :: 0 <= i < j < |rows| ==> rows[i].id < rows[j].id)
    && (forall i, j :: 0 <= i < j < |rows| ==> rows[i].username != rows[j].username)
    && (forall i, j :: 0 <= i < j < |rows| ==> rows[i].email != rows[j].email)
  }

  /** Every session names an existing row by its id and username. */
  predicate SessionsValid(rows: seq<Row>, sessions: map<ClientId, SessionData>)
  {
    forall c :: c in sessions ==>
      exists i :: 0 <= i < |rows| && rows[i].id == sessions[c].userId && rows[i].username == sessions[c].username
  }

  predicate Consistent(st: ServerState)
  {
    TableValid(st.rows, st.nextId) && SessionsValid(st.rows, st.sessions)
  }

  // ---------------------------------------------------------------------------
  // Queries

  /** `SELECT ... WHERE username = ?` with `fetchone`. */
  function FindByUsername(rows: seq<Row>, name: string): (r: Option<Row>)
    ensures r.Some? ==> r.value in rows && r.value.username == name
    ensures r.None? <==> forall i :: 0 <= i < |rows| ==> rows[i].username != name
    decreases |rows|
  {
    if rows == [] then None
    else if rows[0].username == name then Some(rows[0])
    else FindByUsername(rows[1..], name)
  }

  /** `SELECT ... WHERE id = ?` with `fetchone`. */
  function FindById(rows: seq<Row>, id: int): (r: Option<Row>)
    ensures r.Some? ==> r.value in rows && r.value.id == id
    ensures r.None? <==> forall i :: 0 <= i < |rows| ==> rows[i].id != id
    decreases |rows|
  {
    if rows == [] then None
    else if rows[0].id == id then Some(rows[0])
    else FindById(rows[1..], id)
  }

  /** In a valid table the username lookup finds the one row with that username. */
  lemma FindByUsernameExact(rows: seq<Row>, nextId: int, i: int)
    requires TableValid(rows, nextId) && 0 <= i < |rows|
    ensures FindByUsername(rows, rows[i].username) == Some(rows[i])
  {
  }

  /** In a valid table the id lookup finds the one row with that id. */
  lemma FindByIdExact(rows: seq<Row>, nextId: int, i: int)
    requires TableValid(rows, nextId) && 0 <= i < |rows|
    ensures FindById(rows, rows[i].id) == Some(rows[i])
  {
  }

  /** The UNIQUE constraints an insert of `username` and `email` would break. */
  predicate Taken(rows: seq<Row>, username: string, email: string)
  {
    exists i :: 0 <= i < |rows| && (rows[i].username == username || rows[i].email == email)
  }

  // ---------------------------------------------------------------------------
  // Endpoints

  /**
   * `register`: all three fields are required; a username or email already in
   * the table is refused by the UNIQUE constraints; otherwise one row is
   * appended under a fresh id, the client's session points at it, and the
   * reply carries the user without the password.
   */
  function RegisterStep(st: ServerState, d: Digest, client: ClientId, form: RegisterForm, salt: string): (r: StepResult)
    ensures !(Present(form.username) && Present(form.email) && Present(form.password)) ==>
              r == StepResult(st, Response(400, ErrorReply(AllFieldsRequired)))
    ensures Present(form.username) && Present(form.email) && Present(form.password)
              && Taken(st.rows, form.username.value, form.email.value) ==>
              r == StepResult(st, Response(400, ErrorReply(AlreadyExists)))
    ensures r.response.status == 201 <==>
              Present(form.username) && Present(form.email) && Present(form.password)
              && !Taken(st.rows, form.username.value, form.email.value)
    ensures r.response.status == 201 ==>
              var row := Row(st.nextId, form.username.value, form.email.value,
                             GeneratePasswordHash(d, form.password.value, salt));
              && r.state.rows == st.rows + [row]
              && r.state.nextId > st.nextId
              && r.state.sessions == st.sessions[client := SessionData(row.id, row.username)]
              && r.response.reply == UserReply("Registration successful", Public(row))
    ensures r.response.status == 201 && TableValid(st.rows, st.nextId) ==>
              forall i :: 0 <= i < |st.rows| ==> st.rows[i].id != r.state.rows[|st.rows|].id
    ensures Consistent(st) ==> Consistent(r.state)
  {
    if !(Present(form.username) && Present(form.email) && Present(form.password)) then
      StepResult(st, Response(400, ErrorReply(AllFieldsRequired)))
    else
      var username, email := form.username.value, form.email.value;
      var hashed := GeneratePasswordHash(d, form.password.value, salt);
      if Taken(st.rows, username, email) then
        StepResult(st, Response(400, ErrorReply(AlreadyExists)))
      else
        var row := Row(st.nextId, username, email, hashed);
        var rows := st.rows + [row];
        var sessions := st.sessions[client := SessionData(row.id, username)];
        assert Consistent(st) ==> Consistent(ServerState(rows, st.nextId + 1, sessions)) by {
          if Consistent(st) {
            assert rows[|st.rows|] == row;
            forall c | c in sessions
              ensures exists i :: 0 <= i < |rows| && rows[i].id == sessions[c].userId
                                  && rows[i].username == sessions[c].username
            {
              if c == client {
                assert rows[|st.rows|].id == sessions[c].userId;
              } else {
                var i :| 0 <= i < |st.rows| && st.rows[i].id == st.sessions[c].userId
                         && st.rows[i].username == st.sessions[c].username;
                assert rows[i] == st.rows[i];
              }
            }
          }
        }
        StepResult(ServerState(rows, st.nextId + 1, sessions),
                Response(201, UserReply("Registration successful", Public(row))))
  }

  /**
   * `login`: both fields are required; it succeeds exactly when a row has the
   * username and its hash checks against the password, and then the session
   * points at that row. Unknown user and wrong password get the same 401.
   */
  function LoginStep(st: ServerState, d: Digest, client: ClientId, cred: Credentials): (r: StepResult)
    ensures r.state.rows == st.rows && r.state.nextId == st.nextId
    ensures !(Present(cred.username) && Present(cred.password)) ==>
              r == StepResult(st, Response(400, ErrorReply(CredentialsRequired)))
    ensures r.response.status != 200 ==> r.state == st
    ensures Present(cred.username) && Present(cred.password) && r.response.status != 200 ==>
              r.response == Response(401, ErrorReply(InvalidCredentials))
    ensures r.response.status == 200 ==>
              Present(cred.username) && Present(cred.password)
              && (exists i :: 0 <= i < |st.rows| && st.rows[i].username == cred.username.value
                    && CheckPasswordHash(d, st.rows[i].password, cred.password.value)
                    && r.state.sessions == st.sessions[client := SessionData(st.rows[i].id, st.rows[i].username)]
                    && r.response.reply == UserReply("Login successful", Public(st.rows[i])))
    ensures TableValid(st.rows, st.nextId) ==>
              (r.response.status == 200 <==>
                 Present(cred.username) && Present(cred.password)
                 && (exists i :: 0 <= i < |st.rows| && st.rows[i].username == cred.username.value
                       && CheckPasswordHash(d, st.rows[i].password, cred.password.value)))
    ensures Consistent(st) ==> Consistent(r.state)
  {
    if !(Present(cred.username) && Present(cred.password)) then
      StepResult(st, Response(400, ErrorReply(CredentialsRequired)))
    else
      var found := FindByUsername(st.rows, cred.username.value);
      if found.Some? && CheckPasswordHash(d, found.value.password, cred.password.value) then
        var row := found.value;
        var sessions := st.sessions[client := SessionData(row.id, row.username)];
        assert SessionsValid(st.rows, st.sessions) ==> SessionsValid(st.rows, sessions) by {
          var i :| 0 <= i < |st.rows| && st.rows[i] == row;
          if SessionsValid(st.rows, st.sessions) {
            forall c | c in sessions
              ensures exists k :: 0 <= k < |st.rows| && st.rows[k].id == sessions[c].userId
                                  && st.rows[k].username == sessions[c].username
            {
              if c == client {
                assert st.rows[i].id == sessions[c].userId;
              }
            }
          }
        }
        StepResult(st.(sessions := sessions), Response(200, UserReply("Login successful", Public(row))))
      else
        assert TableValid(st.rows, st.nextId) ==>
                 forall i :: 0 <= i < |st.rows| && st.rows[i].username == cred.username.value
                   ==> !CheckPasswordHash(d, st.rows[i].password, cred.password.value) by {
          if TableValid(st.rows, st.nextId) {
            forall i | 0 <= i < |st.rows| && st.rows[i].username == cred.username.value
              ensures !CheckPasswordHash(d, st.rows[i].password, cred.password.value)
            {
              FindByUsernameExact(st.rows, st.nextId, i);
            }
          }
        }
        StepResult(st, Response(401, ErrorReply(InvalidCredentials)))
  }

  /** `logout`: this client's session is cleared; the table and other clients' sessions stay. */
  function LogoutStep(st: ServerState, client: ClientId): (r: StepResult)
    ensures r.response == Response(200, MessageReply("Logout successful"))
    ensures client !in r.state.sessions
    ensures r.state.sessions.Keys == st.sessions.Keys - {client}
    ensures forall c :: c in r.state.sessions ==> r.state.sessions[c] == st.sessions[c]
    ensures r.state.rows == st.rows && r.state.nextId == st.nextId
    ensures Consistent(st) ==> Consistent(r.state)
  {
    StepResult(st.(sessions := st.sessions - {client}), Response(200, MessageReply("Logout successful")))
  }

  /**
   * `check_auth`: always 200; authenticated, with the row's public fields,
   * exactly when the session's `user_id` names an existing row.
   */
  function CheckAuthReply(st: ServerState, client: ClientId): (r: Response)
    ensures r.status == 200 && r.reply.AuthReply?
    ensures r.reply.authenticated <==>
              client in st.sessions && exists i :: 0 <= i < |st.rows| && st.rows[i].id == st.sessions[client].userId
    ensures r.reply.authenticated ==>
              exists i :: 0 <= i < |st.rows| && st.rows[i].id == st.sessions[client].userId
                          && r.reply.current == Some(Public(st.rows[i]))
    ensures !r.reply.authenticated ==> r.reply.current.None?
    ensures Consistent(st) ==> (r.reply.authenticated <==> client in st.sessions)
  {
    if client in st.sessions then
      var found := FindById(st.rows, st.sessions[client].userId);
      if found.Some? then
        Response(200, AuthReply(true, Some(Public(found.value))))
      else
        Response(200, AuthReply(false, None))
    else
      Response(200, AuthReply(false, None))
  }

  /** One request to one of the four endpoints. */
  datatype Call =
    | RegisterCall(client: ClientId, form: RegisterForm, salt: string)
    | LoginCall(client: ClientId, cred: Credentials)
    | LogoutCall(client: ClientId)
    | CheckAuthCall(client: ClientId)

  /**
   * Serving one request keeps the server consistent and never removes or
   * edits a row: the old table is a prefix of the new one.
   */
  function Serve(st: ServerState, d: Digest, call: Call): (r: StepResult)
    ensures st.rows <= r.state.rows
    ensures Consistent(st) ==> Consistent(r.state)
  {
    match call
    case RegisterCall(client, form, salt) => RegisterStep(st, d, client, form, salt)
    case LoginCall(client, cred) => LoginStep(st, d, client, cred)
    case LogoutCall(client) => LogoutStep(st, client)
    case CheckAuthCall(client) => StepResult(st, CheckAuthReply(st, client))
  }

  /** The state after serving `calls` in order. */
  function ServeAll(st: ServerState, d: Digest, calls: seq<Call>): ServerState
    decreases |calls|
  {
    if calls == [] then st else ServeAll(Serve(st, d, calls[0]).state, d, calls[1..])
  }

  /**
   * Whatever requests arrive, in whatever order, the table keeps its
   * constraints, every session names an existing row, and rows are only ever
   * appended.
   */
  lemma {:induction false} ServeAllKeepsConsistent(st: ServerState, d: Digest, calls: seq<Call>)
    requires Consistent(st)
    ensures Consistent(ServeAll(st, d, calls))
    ensures st.rows <= ServeAll(st, d, calls).rows
    decreases |calls|
  {
    if calls != [] {
      var next := Serve(st, d, calls[0]).state;
      ServeAllKeepsConsistent(next, d, calls[1..]);
    }
  }

  /**
   * A successful registration can be followed by a login, from any client,
   * with the same username and password, which returns the new user.
   */
  lemma RegisterThenLogin(st: ServerState, d: Digest, c1: ClientId, c2: ClientId,
                          username: string, email: string, password: string, salt: string)
    requires Consistent(st)
    requires RegisterStep(st, d, c1, RegisterForm(Some(username), Some(email), Some(password)), salt).response.status == 201
    ensures var after := RegisterStep(st, d, c1, RegisterForm(Some(username), Some(email), Some(password)), salt).state;
            LoginStep(after, d, c2, Credentials(Some(username), Some(password))).response
              == Response(200, UserReply("Login successful", UserInfo(st.nextId, username, email)))
  {
  }

  /** Right after registering, the same client's `check_auth` reports the new user. */
  lemma RegisterThenCheckAuth(st: ServerState, d: Digest, client: ClientId,
                              username: string, email: string, password: string, salt: string)
    requires Consistent(st)
    requires RegisterStep(st, d, client, RegisterForm(Some(username), Some(email), Some(password)), salt).response.status == 201
    ensures var after := RegisterStep(st, d, client, RegisterForm(Some(username), Some(email), Some(password)), salt).state;
            CheckAuthReply(after, client) == Response(200, AuthReply(true, Some(UserInfo(st.nextId, username, email))))
  {
  }

  /** After `logout`, the same client's `check_auth` reports nobody, whatever came before. */
  lemma LogoutThenCheckAuth(st: ServerState, client: ClientId)
    ensures CheckAuthReply(LogoutStep(st, client).state, client) == Response(200, AuthReply(false, None))
  {
  }

  /** register, then logout, then check_auth, from one client: not authenticated. */
  lemma RegisterLogoutCheckAuth(st: ServerState, d: Digest, client: ClientId, form: RegisterForm, salt: string)
    ensures var registered := RegisterStep(st, d, client, form, salt).state;
            CheckAuthReply(LogoutStep(registered, client).state, client) == Response(200, AuthReply(false, None))
  {
  }

  // ---------------------------------------------------------------------------
  // The service

  /** The running service: the table, its counter, and the sessions. */
  class App {
    const digest: Digest
    var users: seq<Row>
    var nextId: int
    var sessions: map<ClientId, SessionData>

    function State(): ServerState
      reads this
    {
      ServerState(users, nextId, sessions)
    }

    ghost predicate Valid()
      reads this
    {
      Consistent(State())
    }

    /**
     * Start-up over an existing table (`CREATE TABLE IF NOT EXISTS`). The
     * secret key is drawn afresh at start-up, so no earlier session survives.
     */
    constructor (digest: Digest, users: seq<Row>, nextId: int)
      requires TableValid(users, nextId)
      ensures this.digest == digest
      ensures State() == ServerState(users, nextId, map[])
      ensures Valid()
    {
      this.digest := digest;
      this.users := users;
      this.nextId := nextId;
      this.sessions := map[];
    }

    /** `POST /api/register`. */
    method Register(client: ClientId, form: RegisterForm, salt: string) returns (resp: Response)
      requires Valid()
      modifies this
      ensures Valid()
      ensures StepResult(State(), resp) == RegisterStep(old(State()), digest, client, form, salt)
    {
      if !Present(form.username) || !Present(form.email) || !Present(form.password) {
        return Response(400, ErrorReply(AllFieldsRequired));
      }
      var username, email := form.username.value, form.email.value;
      var hashed := GeneratePasswordHash(digest, form.password.value, salt);
      if Taken(users, username, email) {
        // the INSERT violates a UNIQUE constraint: sqlite3.IntegrityError
        return Response(400, ErrorReply(AlreadyExists));
      }
      var userId := nextId;
      users := users + [Row(userId, username, email, hashed)];
      nextId := nextId + 1;
      sessions := sessions[client := SessionData(userId, username)];
      resp := Response(201, UserReply("Registration successful", UserInfo(userId, username, email)));
      assert StepResult(State(), resp) == RegisterStep(old(State()), digest, client, form, salt);
    }

    /** `POST /api/login`. */
    method Login(client: ClientId, cred: Credentials) returns (resp: Response)
      requires Valid()
      modifies this
      ensures Valid()
      ensures StepResult(State(), resp) == LoginStep(old(State()), digest, client, cred)
    {
      if !Present(cred.username) || !Present(cred.password) {
        return Response(400, ErrorReply(CredentialsRequired));
      }
      var user := FindByUsername(users, cred.username.value);
      if user.Some? && CheckPasswordHash(digest, user.value.password, cred.password.value) {
        sessions := sessions[client := SessionData(user.value.id, user.value.username)];
        resp := Response(200, UserReply("Login successful", Public(user.value)));
      } else {
        resp := Response(401, ErrorReply(InvalidCredentials));
      }
    }

    /** `POST /api/logout`: `session.clear()`. */
    method Logout(client: ClientId) returns (resp: Response)
      requires Valid()
      modifies this
      ensures Valid()
      ensures StepResult(State(), resp) == LogoutStep(old(State()), client)
    {
      sessions := sessions - {client};
      resp := Response(200, MessageReply("Logout successful"));
    }

    /** `GET /api/check-auth`: reads the session and the table, changes nothing. */
    method CheckAuth(client: ClientId) returns (resp: Response)
      ensures resp == CheckAuthReply(State(), client)
    {
      resp := Response(200, AuthReply(false, None));
      if client in sessions {
        var user := FindById(users, sessions[client].userId);
        if user.Some? {
          resp := Response(200, AuthReply(true, Some(Public(user.value))));
        }
      }
    }
  }
}
