/**
 * The authentication controller of the single-page client (ReactApp/src/App.js).
 *
 * The component keeps five pieces of state: `currentPage`, `user`, `formData`,
 * `error` and `loading`. Each event handler is atomic here: the network call it
 * awaits is an input value (`Outcome`) instead of a `fetch`.
 *
 * The module has two layers. The functions over `State` say what each handler
 * does to the whole state and what is rendered from it; the class `Controller`
 * holds the five fields and updates them setter by setter, as the handlers do,
 * and its methods are proved to agree with those functions.
 */
module Client {
  import opened Wrappers

  /** Which screen the component is on (`currentPage`). */
  datatype Page = Login | Register | Home

  /** The three named inputs of the form; `e.target.name` is always one of them. */
  datatype Field = Username | Email | Password

  /** The user snapshot that the server returns and the dashboard shows. */
  datatype User = User(id: int, username: string, email: string)

  /** The draft credentials (`formData`). */
  datatype Form = Form(username: string, email: string, password: string)
  {
    function Get(f: Field): string
    {
      match f
      case Username => username
      case Email => email
      case Password => password
    }

    /** `{...formData, [name]: value}`: one field replaced, the other two kept. */
    function Set(f: Field, v: string): (r: Form)
      ensures r.Get(f) == v
      ensures forall g :: g != f ==> r.Get(g) == Get(g)
    {
      match f
      case Username => this.(username := v)
      case Email => this.(email := v)
      case Password => this.(password := v)
    }
  }

  const EmptyForm := Form("", "", "")

  /** The fixed text shown when a login or registration call fails without a usable reply. */
  const ConnectionError := "Connection error. Please try again."

  /**
   * The JSON body of a reply, as far as the client reads it. A field the JSON
   * lacks reads as `false`, `None` or `""`: an absent `error` is `undefined`
   * in the source, which renders exactly as the empty string does.
   */
  datatype Body = Body(authenticated: bool, user: Option<User>, error: string)

  /**
   * How one awaited network call ended: `fetch` rejected, or a response came
   * back with its `ok` flag and its body (`None` when `response.json()` rejects).
   */
  datatype Outcome =
    | TransportFailure
    | Reply(ok: bool, body: Option<Body>)

  /** The request body a submission sends. */
  datatype Request =
    | LoginRequest(username: string, password: string)
    | RegisterRequest(username: string, email: string, password: string)

  /** The component's whole state. */
  datatype State = State(page: Page, user: Option<User>, form: Form, error: string, loading: bool)

  /** The state `useState` starts the component in. */
  const Initial := State(Login, None, EmptyForm, "", true)

  /** A probe reply that `checkAuth` takes as "signed in": a parsed body whose `authenticated` is set. */
  predicate ReportsAuthenticated(probe: Outcome)
  {
    probe.Reply? && probe.body.Some? && probe.body.value.authenticated
  }

  /**
   * `checkAuth`: on an authenticated reply adopt its user and go home; any
   * other reply, a JSON error or a transport error changes nothing but the
   * loading flag, which is cleared on every path. The error text is never set.
   */
  function AfterCheckAuth(s: State, probe: Outcome): (r: State)
    ensures !r.loading
    ensures r.form == s.form && r.error == s.error
    ensures ReportsAuthenticated(probe) ==> r.page == Home && r.user == probe.body.value.user
    ensures !ReportsAuthenticated(probe) ==> r.page == s.page && r.user == s.user
  {
    var t := if ReportsAuthenticated(probe) then s.(user := probe.body.value.user, page := Home) else s;
    t.(loading := false)
  }

  /** `handleInputChange`: exactly the edited field takes the new value, and the error is dismissed. */
  function AfterInputChange(s: State, name: Field, value: string): (r: State)
    ensures r.form.Get(name) == value
    ensures forall g :: g != name ==> r.form.Get(g) == s.form.Get(g)
    ensures r.error == ""
    ensures r.page == s.page && r.user == s.user && r.loading == s.loading
  {
    s.(form := s.form.Set(name, value), error := "")
  }

  /** The body `handleSubmit` sends: username and password only on the login page, the whole form otherwise. */
  function SubmitRequest(s: State): (r: Request)
    ensures r.LoginRequest? <==> s.page == Login
    ensures r.username == s.form.username && r.password == s.form.password
    ensures r.RegisterRequest? ==> r.email == s.form.email
  {
    if s.page == Login then LoginRequest(s.form.username, s.form.password)
    else RegisterRequest(s.form.username, s.form.email, s.form.password)
  }

  /**
   * The state change shared by `handleLogin` and `handleRegister`, which differ
   * only in the endpoint and the body they send. An ok reply signs the user in
   * and clears the form; a reply that is not ok shows the server's error and
   * keeps everything else; a transport or JSON failure shows the fixed
   * connection error and keeps everything else.
   */
  function AfterSubmit(s: State, reply: Outcome): (r: State)
    ensures r.loading == s.loading
    ensures reply.Reply? && reply.body.Some? && reply.ok ==>
              r.user == reply.body.value.user && r.page == Home && r.form == EmptyForm && r.error == ""
    ensures reply.Reply? && reply.body.Some? && !reply.ok ==>
              r.error == reply.body.value.error && r.form == s.form && r.user == s.user && r.page == s.page
    ensures reply.TransportFailure? || reply.body.None? ==>
              r.error == ConnectionError && r.form == s.form && r.user == s.user && r.page == s.page
  {
    var cleared := s.(error := "");
    match reply
    case TransportFailure => cleared.(error := ConnectionError)
    case Reply(ok, body) =>
      match body
      case None => cleared.(error := ConnectionError)
      case Some(data) =>
        if ok then cleared.(user := data.user, page := Home, form := EmptyForm)
        else cleared.(error := data.error)
  }

  /**
   * `handleLogout`: any response, whatever its status, signs the user out
   * locally; a rejected `fetch` is only logged and leaves the state as it was.
   */
  function AfterLogout(s: State, reply: Outcome): (r: State)
    ensures reply.TransportFailure? ==> r == s
    ensures reply.Reply? ==> r.user.None? && r.page == Login && r.form == EmptyForm
    ensures r.error == s.error && r.loading == s.loading
  {
    if reply.Reply? then s.(user := None, page := Login, form := EmptyForm) else s
  }

  /**
   * The link under the form: login becomes register and every other page
   * becomes login; the error and the form are cleared.
   */
  function AfterToggle(s: State): (r: State)
    ensures s.page == Login ==> r.page == Register
    ensures s.page != Login ==> r.page == Login
    ensures r.error == "" && r.form == EmptyForm
    ensures r.user == s.user && r.loading == s.loading
  {
    s.(page := if s.page == Login then Register else Login, error := "", form := EmptyForm)
  }

  /**
   * What the component renders. `loginMode` selects the title "Welcome Back",
   * the button label "Login" and the link to registration; otherwise the
   * screen reads "Create Account" and "Register". `banner` is the error box.
   */
  datatype View =
    | Loading
    | Dashboard(user: User)
    | AuthForm(loginMode: bool, showEmail: bool, banner: Option<string>, form: Form)

  /** The render branch: the loading screen first, then the dashboard, else the form. */
  function Render(s: State): (v: View)
    ensures v.Loading? <==> s.loading
    ensures v.Dashboard? <==> !s.loading && s.page == Home && s.user.Some?
    ensures v.Dashboard? ==> Some(v.user) == s.user
    ensures v.AuthForm? ==> (v.loginMode <==> s.page == Login) && (v.showEmail <==> s.page == Register)
    ensures v.AuthForm? ==> (v.banner.Some? <==> s.error != "") && (v.banner.Some? ==> v.banner.value == s.error)
    ensures v.AuthForm? ==> v.form == s.form
  {
    if s.loading then Loading
    else if s.page == Home && s.user.Some? then Dashboard(s.user.value)
    else AuthForm(s.page == Login, s.page == Register, if s.error == "" then None else Some(s.error), s.form)
  }

  /** Toggling twice gives back the original form page, with the form and the error cleared. */
  lemma ToggleTwice(s: State)
    ensures s.page != Home ==> AfterToggle(AfterToggle(s)) == s.(form := EmptyForm, error := "")
    ensures s.page == Home ==> AfterToggle(AfterToggle(s)).page == Register
  {
  }

  // ---------------------------------------------------------------------------
  // Sequences of edits

  /** A run of `handleInputChange` calls, applied in order. */
  function ApplyEdits(s: State, edits: seq<(Field, string)>): State
    decreases |edits|
  {
    if edits == [] then s
    else
      var last := edits[|edits| - 1];
      AfterInputChange(ApplyEdits(s, edits[..|edits| - 1]), last.0, last.1)
  }

  /** The value most recently written to `f` by `edits`, or `default` if none writes it. */
  function LastWritten(edits: seq<(Field, string)>, f: Field, default: string): string
    decreases |edits|
  {
    if edits == [] then default
    else if edits[|edits| - 1].0 == f then edits[|edits| - 1].1
    else LastWritten(edits[..|edits| - 1], f, default)
  }

  /**
   * After any run of edits every field holds the last value written to it
   * (or its old value), the error is empty if there was at least one edit, and
   * nothing else has moved.
   */
  lemma {:induction false} EditsKeepLastWrite(s: State, edits: seq<(Field, string)>, f: Field)
    ensures ApplyEdits(s, edits).form.Get(f) == LastWritten(edits, f, s.form.Get(f))
    ensures edits != [] ==> ApplyEdits(s, edits).error == ""
    ensures var r := ApplyEdits(s, edits); r.page == s.page && r.user == s.user && r.loading == s.loading
    decreases |edits|
  {
    if edits != [] {
      EditsKeepLastWrite(s, edits[..|edits| - 1], f);
    }
  }

  // ---------------------------------------------------------------------------
  // Traces of user-visible events

  /** One event the component reacts to, with the outcome of the call it awaits. */
  datatype Event =
    | Probed(probe: Outcome)
    | Edited(field: Field, value: string)
    | Submitted(reply: Outcome)
    | LoggedOut(reply: Outcome)
    | Toggled

  function Apply(s: State, e: Event): State
  {
    match e
    case Probed(probe) => AfterCheckAuth(s, probe)
    case Edited(f, v) => AfterInputChange(s, f, v)
    case Submitted(reply) => AfterSubmit(s, reply)
    case LoggedOut(reply) => AfterLogout(s, reply)
    case Toggled => AfterToggle(s)
  }

  /**
   * An event can happen only where the rendered screen offers it: the probe
   * completes while the loading screen is up; edits, submission and the
   * toggle need the form (the email box only in register mode); logout needs
   * the dashboard.
   */
  predicate Enabled(s: State, e: Event)
  {
    var v := Render(s);
    match e
    case Probed(_) => v.Loading?
    case Edited(f, _) => v.AuthForm? && (f == Email ==> v.showEmail)
    case Submitted(_) => v.AuthForm?
    case LoggedOut(_) => v.Dashboard?
    case Toggled => v.AuthForm?
  }

  /** Every event of `es` is offered by the screen it happens on. */
  predicate Feasible(s: State, es: seq<Event>)
    decreases |es|
  {
    es == [] || (Enabled(s, es[0]) && Feasible(Apply(s, es[0]), es[1..]))
  }

  function Run(s: State, es: seq<Event>): State
    decreases |es|
  {
    if es == [] then s else Run(Apply(s, es[0]), es[1..])
  }

  /**
   * What every reachable state satisfies: no error while loading, and a known
   * user only on the home page and with no error on show.
   */
  predicate Coherent(s: State)
  {
    (s.loading ==> s.error == "") && (s.user.Some? ==> s.page == Home && s.error == "")
  }

  lemma InitialCoherent()
    ensures Coherent(Initial) && Render(Initial) == Loading
  {
  }

  /** Each offered event keeps the state coherent. */
  lemma ApplyKeepsCoherent(s: State, e: Event)
    requires Coherent(s) && Enabled(s, e)
    ensures Coherent(Apply(s, e))
  {
  }

  /**
   * Along any feasible trace the state stays coherent; so, once loaded, the
   * dashboard is on screen exactly when a user is known.
   */
  lemma {:induction false} RunKeepsCoherent(s: State, es: seq<Event>)
    requires Coherent(s) && Feasible(s, es)
    ensures Coherent(Run(s, es))
    ensures var r := Run(s, es); !r.loading ==> (Render(r).Dashboard? <==> r.user.Some?)
    decreases |es|
  {
    if es != [] {
      ApplyKeepsCoherent(s, es[0]);
      RunKeepsCoherent(Apply(s, es[0]), es[1..]);
    }
  }

  /**
   * Leaving the dashboard: a resolved logout shows the empty login form with
   * no error box; a rejected one leaves the dashboard on screen.
   */
  lemma LogoutFromDashboard(s: State, reply: Outcome)
    requires Coherent(s) && Render(s).Dashboard?
    ensures reply.Reply? ==> Render(AfterLogout(s, reply)) == AuthForm(true, false, None, EmptyForm)
    ensures reply.TransportFailure? ==> Render(AfterLogout(s, reply)) == Render(s)
  {
  }

  // ---------------------------------------------------------------------------
  // The component

  /** The component instance: its five state fields and its event handlers. */
  class Controller {
    var currentPage: Page
    var user: Option<User>
    var formData: Form
    var error: string
    var loading: bool

    function Snapshot(): State
      reads this
    {
      State(currentPage, user, formData, error, loading)
    }

    /** The initial `useState` values. */
    constructor ()
      ensures Snapshot() == Initial
    {
      currentPage := Login;
      user := None;
      formData := EmptyForm;
      error := "";
      loading := true;
    }

    /** `checkAuth`, run once on mount. */
    method CheckAuth(probe: Outcome)
      modifies this
      ensures Snapshot() == AfterCheckAuth(old(Snapshot()), probe)
    {
      if probe.Reply? && probe.body.Some? {
        var data := probe.body.value;
        if data.authenticated {
          user := data.user;
          currentPage := Home;
        }
      }
      loading := false;
    }

    /** `handleInputChange` for the input named `name`. */
    method HandleInputChange(name: Field, value: string)
      modifies this
      ensures Snapshot() == AfterInputChange(old(Snapshot()), name, value)
    {
      formData := formData.Set(name, value);
      error := "";
    }

    /** How a login or registration call settles, after the error has been cleared. */
    method SettleSubmission(reply: Outcome)
      requires error == ""
      modifies this
      ensures Snapshot() == AfterSubmit(old(Snapshot()), reply)
    {
      match reply
      case TransportFailure =>
        error := ConnectionError;
      case Reply(ok, body) =>
        if body.None? {
          error := ConnectionError;
        } else if ok {
          user := body.value.user;
          currentPage := Home;
          formData := EmptyForm;
        } else {
          error := body.value.error;
        }
    }

    /** `handleLogin`: sends username and password, never the email. */
    method HandleLogin(reply: Outcome) returns (sent: Request)
      modifies this
      ensures sent == LoginRequest(old(formData).username, old(formData).password)
      ensures Snapshot() == AfterSubmit(old(Snapshot()), reply)
    {
      error := "";
      sent := LoginRequest(formData.username, formData.password);
      SettleSubmission(reply);
    }

    /** `handleRegister`: sends the whole form. */
    method HandleRegister(reply: Outcome) returns (sent: Request)
      modifies this
      ensures sent == RegisterRequest(old(formData).username, old(formData).email, old(formData).password)
      ensures Snapshot() == AfterSubmit(old(Snapshot()), reply)
    {
      error := "";
      sent := RegisterRequest(formData.username, formData.email, formData.password);
      SettleSubmission(reply);
    }

    /** `handleSubmit`, reached alike from the button and from Enter in the password box. */
    method HandleSubmit(reply: Outcome) returns (sent: Request)
      modifies this
      ensures sent == SubmitRequest(old(Snapshot()))
      ensures Snapshot() == AfterSubmit(old(Snapshot()), reply)
    {
      if currentPage == Login {
        sent := HandleLogin(reply);
      } else {
        sent := HandleRegister(reply);
      }
    }

    /** `handleLogout`. */
    method HandleLogout(reply: Outcome)
      modifies this
      ensures Snapshot() == AfterLogout(old(Snapshot()), reply)
    {
      if reply.Reply? {
        user := None;
        currentPage := Login;
        formData := EmptyForm;
      }
    }

    /** The inline handler of the "Register" / "Login" link under the form. */
    method Toggle()
      modifies this
      ensures Snapshot() == AfterToggle(old(Snapshot()))
    {
      currentPage := if currentPage == Login then Register else Login;
      error := "";
      formData := EmptyForm;
    }
  }
}
