/**
 The login page: inputs stored trimmed, the required-field check, the
 outcome of `POST /user/login`, the disabled state of the button and the
 redirect of a logged-in user.
 */
module Login {
  import opened Outcomes
  import opened Text
  import opened Records

  datatype Form = Form(email: string, password: string, error: Option<string>, loading: bool)

  function Initial(): (f: Form)
    ensures f.email == "" && f.password == "" && f.error.None? && !f.loading
    ensures Inv(f) && Disabled(f)
  {
    Form("", "", None, false)
  }

  /** Both fields hold trimmed text at all times. */
  predicate Inv(f: Form) {
    IsTrimmed(f.email) && IsTrimmed(f.password)
  }

  function Redirect(user: Option<Record>): (r: Option<string>)
    ensures r.Some? <==> user.Some?
    ensures r.Some? ==> r.value == "/"
  {
    if user.Some? then Some("/") else None
  }

  /** Typing into the email field: the trimmed text is stored and the error cleared. */
  function EditEmail(f: Form, text: string): (r: Form)
    ensures r.email == Trim(text) && r.password == f.password && r.error.None?
    ensures Inv(f) ==> Inv(r)
  {
    f.(email := Trim(text), error := None)
  }

  /** Typing into the password field, likewise. */
  function EditPassword(f: Form, text: string): (r: Form)
    ensures r.password == Trim(text) && r.email == f.email && r.error.None?
    ensures Inv(f) ==> Inv(r)
  {
    f.(password := Trim(text), error := None)
  }

  /** Typing only surrounding spaces leaves the field empty. */
  lemma SpacesTypeNothing(f: Form, text: string)
    requires AllSpace(text)
    ensures EditEmail(f, text).email == "" && EditPassword(f, text).password == ""
  {
  }

  /** `disabled={!email || !password || loading}`. */
  predicate Disabled(f: Form) {
    f.email == "" || f.password == "" || f.loading
  }

  datatype Credentials = Credentials(email: string, password: string)

  datatype Submitted = Submitted(form: Form, request: Option<Credentials>, dispatched: Option<Option<Record>>, navigate: Option<string>)

  function Started(f: Form): (r: Form)
    ensures r.loading && Disabled(r)
  {
    f.(loading := true)
  }

  /** `handleSubmit`: an empty field sets the required message and sends
      nothing; otherwise the stored fields are posted. Success stores the
      returned user, empties the fields, clears the error and goes home;
      failure shows the server's message, else the error's own message, else
      "Something went wrong". Loading ends either way. */
  function Submit(f: Form, outcome: Outcome<Option<Record>>): (r: Submitted)
    ensures f.email == "" || f.password == "" ==>
              r == Submitted(f.(error := Some("Both email and password are required")), None, None, None)
    ensures f.email != "" && f.password != "" ==>
              r.request == Some(Credentials(f.email, f.password)) && !r.form.loading
    ensures f.email != "" && f.password != "" && outcome.Success? ==>
              && r.dispatched == Some(outcome.value) && r.navigate == Some("/")
              && r.form == Form("", "", None, false)
    ensures f.email != "" && f.password != "" && outcome.Failure? ==>
              && r.dispatched.None? && r.navigate.None?
              && r.form == f.(error := Some(FirstTruthy([outcome.error.serverMessage, outcome.error.message],
                                                       "Something went wrong")), loading := false)
  {
    if f.email == "" || f.password == "" then
      Submitted(f.(error := Some("Both email and password are required")), None, None, None)
    else
      var req := Credentials(f.email, f.password);
      match outcome
      case Success(u) => Submitted(Form("", "", None, false), Some(req), Some(u), Some("/"))
      case Failure(e) =>
        Submitted(Started(f).(error := Some(FirstTruthy([e.serverMessage, e.message], "Something went wrong")),
                              loading := false), Some(req), None, None)
  }

  /** The credentials sent are trimmed, because the fields always are. */
  lemma CredentialsTrimmed(f: Form, outcome: Outcome<Option<Record>>)
    requires Inv(f) && Submit(f, outcome).request.Some?
    ensures IsTrimmed(Submit(f, outcome).request.value.email)
    ensures IsTrimmed(Submit(f, outcome).request.value.password)
  {
  }

  /** The failure text prefers the server's message, then the error's own. */
  lemma FailureMessagePriority(f: Form, server: Option<string>, own: Option<string>)
    requires f.email != "" && f.password != ""
    ensures Truthy(server) ==> Submit(f, Failure(RequestError(server, own))).form.error == server
    ensures !Truthy(server) && Truthy(own) ==> Submit(f, Failure(RequestError(server, own))).form.error == own
    ensures !Truthy(server) && !Truthy(own) ==>
              Submit(f, Failure(RequestError(server, own))).form.error == Some("Something went wrong")
  {
    var c := [server, own];
    assert c[1..] == [own];
    if !Truthy(server) {
      assert FirstTruthy(c, "Something went wrong") == FirstTruthy([own], "Something went wrong");
    }
  }

  /** Whenever the button is enabled the required message cannot appear:
      the check in the handler only fires for forms the button would not
      submit. */
  lemma EnabledNeverRequiredMessage(f: Form, outcome: Outcome<Option<Record>>)
    requires !Disabled(f)
    ensures Submit(f, outcome).request.Some?
  {
  }
}
