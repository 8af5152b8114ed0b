/**
 The sign-up page: redirect of a logged-in user, the submit handler with its
 trimmed validation and payload, the outcome of `POST /user/register`, the
 disabled state of the button, and the error cleared by typing.
 */
module SignUp {
  import opened Outcomes
  import opened Text
  import opened Records
  import UserSlice

  datatype Form = Form(email: string, username: string, password: string, error: Option<string>, loading: bool)

  datatype Field = Email | Username | Password

  function Initial(): (f: Form)
    ensures f.email == "" && f.username == "" && f.password == "" && f.error.None? && !f.loading
  {
    Form("", "", "", None, false)
  }

  /** Anyone already logged in is sent home. */
  function Redirect(user: Option<Record>): (r: Option<string>)
    ensures r.Some? <==> user.Some?
    ensures r.Some? ==> r.value == "/"
  {
    if user.Some? then Some("/") else None
  }

  /** Typing into a field stores the text as typed and clears the error. */
  function Edit(f: Form, field: Field, text: string): (r: Form)
    ensures r.error.None? && r.loading == f.loading
    ensures field == Email ==> r.email == text && r.username == f.username && r.password == f.password
    ensures field == Username ==> r.username == text && r.email == f.email && r.password == f.password
    ensures field == Password ==> r.password == text && r.email == f.email && r.username == f.username
  {
    match field
    case Email => f.(email := text, error := None)
    case Username => f.(username := text, error := None)
    case Password => f.(password := text, error := None)
  }

  /** `disabled={!email || !username || !password || loading}`: on the raw text. */
  predicate Disabled(f: Form) {
    f.email == "" || f.username == "" || f.password == "" || f.loading
  }

  /** The body of `POST /user/register`. */
  datatype Registration = Registration(email: string, username: string, password: string)

  /** What a submit leaves: the form, the request sent, the user dispatched
      with `addUser` and where it navigated. */
  datatype Submitted = Submitted(form: Form, request: Option<Registration>, dispatched: Option<Option<Record>>, navigate: Option<string>)

  predicate AnyBlank(f: Form) {
    IsBlank(f.email) || IsBlank(f.password) || IsBlank(f.username)
  }

  /** While the request is in flight. */
  function Started(f: Form): (r: Form)
    ensures r.loading && Disabled(r)
  {
    f.(loading := true)
  }

  /** `handleSubmit`: a blank trimmed field ends it silently; otherwise the
      trimmed values are posted. Success stores the returned user, empties the
      fields, clears the error and goes home; failure shows the server's
      message or "Something went wrong". Loading ends either way. */
  function Submit(f: Form, outcome: Outcome<Option<Record>>): (r: Submitted)
    ensures AnyBlank(f) ==> r == Submitted(f, None, None, None)
    ensures !AnyBlank(f) ==>
              && r.request == Some(Registration(Trim(f.email), Trim(f.username), Trim(f.password)))
              && !r.form.loading
    ensures !AnyBlank(f) && outcome.Success? ==>
              && r.dispatched == Some(outcome.value) && r.navigate == Some("/")
              && r.form == Form("", "", "", None, false)
    ensures !AnyBlank(f) && outcome.Failure? ==>
              && r.dispatched.None? && r.navigate.None?
              && r.form == f.(error := Some(FirstTruthy([outcome.error.serverMessage], "Something went wrong")), loading := false)
  {
    if AnyBlank(f) then Submitted(f, None, None, None)
    else
      var req := Registration(Trim(f.email), Trim(f.username), Trim(f.password));
      match outcome
      case Success(u) => Submitted(Form("", "", "", None, false), Some(req), Some(u), Some("/"))
      case Failure(e) =>
        Submitted(Started(f).(error := Some(FirstTruthy([e.serverMessage], "Something went wrong")), loading := false),
                  Some(req), None, None)
  }

  /** The payload never carries surrounding whitespace. */
  lemma PayloadTrimmed(f: Form, outcome: Outcome<Option<Record>>)
    requires Submit(f, outcome).request.Some?
    ensures var q := Submit(f, outcome).request.value;
            IsTrimmed(q.email) && IsTrimmed(q.username) && IsTrimmed(q.password)
            && q.email != "" && q.username != "" && q.password != ""
  {
  }

  /** A username of spaces enables the button and passes the browser's
      `required` check, yet the submit sends nothing and shows no error. */
  lemma SpacesPassButtonButSendNothing(f: Form, outcome: Outcome<Option<Record>>)
    requires f.username == " " && f.email != "" && f.password != "" && !f.loading
    ensures !Disabled(f)
    ensures Submit(f, outcome) == Submitted(f, None, None, None)
  {
    assert IsBlank(" ") by { assert IsSpace(" "[0]); }
  }

  /** A failed sign-up always shows some error, and typing clears it. */
  lemma FailureShownUntilTyping(f: Form, e: RequestError, field: Field, text: string)
    requires !AnyBlank(f)
    ensures var after := Submit(f, Failure(e)).form;
            after.error.Some? && after.error.value != "" && Edit(after, field, text).error.None?
  {
    var msg := FirstTruthy([e.serverMessage], "Something went wrong");
    assert msg != "";
    assert Submit(f, Failure(e)).form.error == Some(msg);
  }

  /** A successful sign-up with a user in the response makes the page
      redirect home on the next render. */
  lemma SuccessThenRedirect(f: Form, s: UserSlice.State, u: Record)
    requires !AnyBlank(f)
    ensures var r := Submit(f, Success(Some(u)));
            Redirect(UserSlice.Add(s, r.dispatched.value).user) == Some("/")
  {
  }
}
