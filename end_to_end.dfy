/**
 * The client of ReactApp/src/App.js talking to the service of FlaskApp/app.py.
 *
 * A server response reaches the client as `fetch` delivers it: `ok` for a
 * status in 200-299 and the JSON body read field by field. A submission
 * reaches the server as the JSON the client built, with every key present.
 * The browser's cookie identifies the client to the server.
 */
module EndToEnd {
  import opened Wrappers
  import Client
  import Server

  function ToClientUser(u: Server.UserInfo): Client.User
  {
    Client.User(u.id, u.username, u.email)
  }

  /** The JSON body of a reply, as the client reads it. */
  function BodyOf(reply: Server.Reply): Client.Body
  {
    match reply
    case ErrorReply(e) => Client.Body(false, None, e)
    case UserReply(_, u) => Client.Body(false, Some(ToClientUser(u)), "")
    case AuthReply(a, u) => Client.Body(a, if u.Some? then Some(ToClientUser(u.value)) else None, "")
    case MessageReply(_) => Client.Body(false, None, "")
  }

  /** A server response as the awaited `fetch` delivers it. */
  function Deliver(resp: Server.Response): Client.Outcome
  {
    Client.Reply(200 <= resp.status < 300, Some(BodyOf(resp.reply)))
  }

  /** The request a submission makes; the client's form fields are always strings. */
  function ToCall(client: Server.ClientId, req: Client.Request, salt: string): Server.Call
  {
    match req
    case LoginRequest(u, p) =>
      Server.LoginCall(client, Server.Credentials(Some(u), Some(p)))
    case RegisterRequest(u, e, p) =>
      Server.RegisterCall(client, Server.RegisterForm(Some(u), Some(e), Some(p)), salt)
  }

  /** A fresh page load: the component starts and its probe asks this server. */
  function PageLoad(st: Server.ServerState, client: Server.ClientId): Client.State
  {
    Client.AfterCheckAuth(Client.Initial, Deliver(Server.CheckAuthReply(st, client)))
  }

  /** The login form as it first appears: login mode, no error, all fields empty. */
  const FreshLoginForm := Client.AuthForm(true, false, None, Client.EmptyForm)

  /**
   * A page load against a consistent server always settles: the dashboard of
   * the session's user when the client has a session, the empty login form
   * otherwise.
   */
  lemma PageLoadSettles(st: Server.ServerState, client: Server.ClientId)
    requires Server.Consistent(st)
    ensures var s := PageLoad(st, client); !s.loading && Client.Coherent(s)
    ensures client in st.sessions ==>
              exists i :: 0 <= i < |st.rows| && st.rows[i].id == st.sessions[client].userId
                && Client.Render(PageLoad(st, client)) == Client.Dashboard(ToClientUser(Server.Public(st.rows[i])))
    ensures client !in st.sessions ==>
              PageLoad(st, client).page == Client.Login && Client.Render(PageLoad(st, client)) == FreshLoginForm
  {
  }

  /**
   * Submitting the login form: the dashboard appears exactly when both fields
   * are filled in and a row with that username accepts the password, and then
   * it shows that row and the client's session points at it. Otherwise the
   * form stays as typed and shows the server's message.
   */
  lemma LoginFromForm(st: Server.ServerState, d: Server.Digest, client: Server.ClientId, s: Client.State, salt: string)
    requires Server.Consistent(st)
    requires Client.Render(s).AuthForm? && s.page == Client.Login
    ensures var out := Server.Serve(st, d, ToCall(client, Client.SubmitRequest(s), salt));
            var after := Client.AfterSubmit(s, Deliver(out.response));
            Client.Render(after).Dashboard? <==>
              s.form.username != "" && s.form.password != ""
              && (exists i :: 0 <= i < |st.rows| && st.rows[i].username == s.form.username
                    && Server.CheckPasswordHash(d, st.rows[i].password, s.form.password))
    ensures var out := Server.Serve(st, d, ToCall(client, Client.SubmitRequest(s), salt));
            var after := Client.AfterSubmit(s, Deliver(out.response));
            Client.Render(after).Dashboard? ==>
              exists i :: 0 <= i < |st.rows| && st.rows[i].username == s.form.username
                && Client.Render(after) == Client.Dashboard(ToClientUser(Server.Public(st.rows[i])))
                && out.state.sessions[client] == Server.SessionData(st.rows[i].id, st.rows[i].username)
    ensures var out := Server.Serve(st, d, ToCall(client, Client.SubmitRequest(s), salt));
            var after := Client.AfterSubmit(s, Deliver(out.response));
            !Client.Render(after).Dashboard? ==>
              out.state == st
              && after == s.(error := if s.form.username == "" || s.form.password == ""
                                      then Server.CredentialsRequired else Server.InvalidCredentials)
  {
  }

  /**
   * Submitting the registration form: the dashboard appears exactly when all
   * three fields are filled in and neither the username nor the email is
   * taken; it shows the new user under the next id, and a page load right
   * after shows the same dashboard. Otherwise the form stays as typed and
   * shows the server's message.
   */
  lemma RegisterFromForm(st: Server.ServerState, d: Server.Digest, client: Server.ClientId, s: Client.State, salt: string)
    requires Server.Consistent(st)
    requires Client.Render(s).AuthForm? && s.page != Client.Login
    ensures var out := Server.Serve(st, d, ToCall(client, Client.SubmitRequest(s), salt));
            var after := Client.AfterSubmit(s, Deliver(out.response));
            Client.Render(after).Dashboard? <==>
              s.form.username != "" && s.form.email != "" && s.form.password != ""
              && !Server.Taken(st.rows, s.form.username, s.form.email)
    ensures var out := Server.Serve(st, d, ToCall(client, Client.SubmitRequest(s), salt));
            var after := Client.AfterSubmit(s, Deliver(out.response));
            var shown := Client.Dashboard(Client.User(st.nextId, s.form.username, s.form.email));
            Client.Render(after).Dashboard? ==>
              Client.Render(after) == shown && Client.Render(PageLoad(out.state, client)) == shown
    ensures var out := Server.Serve(st, d, ToCall(client, Client.SubmitRequest(s), salt));
            var after := Client.AfterSubmit(s, Deliver(out.response));
            !Client.Render(after).Dashboard? ==>
              out.state == st
              && after == s.(error := if s.form.username == "" || s.form.email == "" || s.form.password == ""
                                      then Server.AllFieldsRequired else Server.AlreadyExists)
  {
  }

  /**
   * Logging out of the dashboard shows the empty login form, and so does
   * a page load right after the logout.
   */
  lemma LogoutThenReload(st: Server.ServerState, client: Server.ClientId, s: Client.State)
    requires Server.Consistent(st)
    requires Client.Coherent(s) && Client.Render(s).Dashboard?
    ensures var out := Server.LogoutStep(st, client);
            Client.Render(Client.AfterLogout(s, Deliver(out.response))) == FreshLoginForm
            && Client.Render(PageLoad(out.state, client)) == FreshLoginForm
  {
  }
}
