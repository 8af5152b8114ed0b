/**
 The channel-creation page: the redirect guard, the multipart body, the two
 requests of a submit (`POST /channel/create`, then `GET /user` to refresh
 the stored user), the progress bar, the button and the status line.

 `Submit` is the handler as written. Its `catch` block calls `toast`, which
 the file never imports, so the call throws a `ReferenceError` before the
 status and progress are set; only the `finally` block still runs, and the
 error escapes the handler. `SubmitFixed` is the handler with that call
 working, so the failure message is shown.
 */
module CreateChannel {
  import opened Outcomes
  import opened Records
  import UserSlice

  datatype Form = Form(
    name: string,
    description: string,
    /** The chosen image files, by name. */
    avatar: Option<string>,
    banner: Option<string>,
    progress: Option<nat>,
    isUploading: bool,
    status: string)

  function Initial(): (f: Form)
    ensures f.name == "" && f.description == "" && f.avatar.None? && f.banner.None?
    ensures f.progress.None? && !f.isUploading && f.status == ""
  {
    Form("", "", None, None, None, false, "")
  }

  /** The guard effect: logged-out users go to `/login`; a user whose
      `isChannelCreated` is truthy goes to the page of their `channel`. */
  function Redirect(user: Option<Record>): (r: Option<string>)
    ensures user.None? ==> r == Some("/login")
    ensures user.Some? && FieldTruthy(Get(user, "isChannelCreated")) ==>
              r == Some("/channel/" + TemplateText(Get(user, "channel")))
    ensures user.Some? && !FieldTruthy(Get(user, "isChannelCreated")) ==> r.None?
  {
    if user.None? then Some("/login")
    else if FieldTruthy(Get(user, "isChannelCreated")) then Some("/channel/" + TemplateText(Get(user, "channel")))
    else None
  }

  /** A user who already owns a channel is sent to it; one without
      `isChannelCreated` may stay, whatever their `channel` field holds. */
  lemma OwnerSentToChannel(user: Record, id: string)
    ensures "isChannelCreated" in user && user["isChannelCreated"] == Bool(true)
            && "channel" in user && user["channel"] == Str(id)
            ==> Redirect(Some(user)) == Some("/channel/" + id)
    ensures "isChannelCreated" !in user ==> Redirect(Some(user)).None?
  {
  }

  /** One `formData.append(name, value)`. */
  datatype Entry = Entry(name: string, value: string)

  /** The multipart body: name and description always, each image only when
      one was chosen. */
  function Body(f: Form): (r: seq<Entry>)
    ensures 2 <= |r| <= 4
    ensures r[0] == Entry("channelName", f.name) && r[1] == Entry("description", f.description)
    ensures forall a :: Entry("channelAvatar", a) in r <==> f.avatar == Some(a)
    ensures forall b :: Entry("channelBanner", b) in r <==> f.banner == Some(b)
  {
    [Entry("channelName", f.name), Entry("description", f.description)]
    + (if f.avatar.Some? then [Entry("channelAvatar", f.avatar.value)] else [])
    + (if f.banner.Some? then [Entry("channelBanner", f.banner.value)] else [])
  }

  /** Every field name occurs once, in the order the handler appends them. */
  lemma BodyFieldsDistinct(f: Form)
    ensures forall i, j :: 0 <= i < j < |Body(f)| ==> Body(f)[i].name != Body(f)[j].name
    ensures f.avatar.None? && f.banner.None? ==>
              Body(f) == [Entry("channelName", f.name), Entry("description", f.description)]
  {
  }

  /** The handler's first two updates: uploading, no status. */
  function Started(f: Form): (r: Form)
    ensures r.isUploading && r.status == ""
    ensures r.(isUploading := f.isUploading, status := f.status) == f
  {
    f.(isUploading := true, status := "")
  }

  /** An upload-progress event: the rounded percentage is stored (the rounding
      of `loaded * 100 / total` is not modelled). */
  function Progress(f: Form, percent: nat): (r: Form)
    ensures r.progress == Some(percent) && r.(progress := f.progress) == f
  {
    f.(progress := Some(percent))
  }

  /** What a submit leaves: the form, the body posted, the user slice, where
      it navigated, and whether an error escaped the handler. */
  datatype Submitted = Submitted(form: Form, body: Option<seq<Entry>>, user: UserSlice.State,
                                 navigate: Option<string>, escaped: bool)

  /** The form right after `POST /channel/create` resolves: progress cleared,
      the success status set and every field emptied. */
  function Created(f: Form): (r: Form)
    ensures r == Form("", "", None, None, None, f.isUploading, "Created Channel Successfully")
  {
    f.(progress := None, status := "Created Channel Successfully",
       name := "", description := "", avatar := None, banner := None)
  }

  /** `handleSubmit` as written. `create` is how `POST /channel/create` ended
      (with the new channel's id); `refresh` how `GET /user` ended (with
      `data.user`), consulted only when the create succeeded. Any rejection
      reaches the `catch`, whose first statement throws, so the form keeps
      what it had at that point and only `isUploading` is lowered. */
  function Submit(f: Form, user: UserSlice.State, create: Outcome<string>,
                  refresh: Outcome<Option<Record>>): (r: Submitted)
    ensures r.body == Some(Body(f)) && !r.form.isUploading
    ensures create.Failure? ==> r == Submitted(Started(f).(isUploading := false), Some(Body(f)), user, None, true)
    ensures create.Success? && refresh.Success? ==>
              r == Submitted(Initial().(status := "Created Channel Successfully"), Some(Body(f)),
                             UserSlice.Add(user, refresh.value), Some("/channel/" + create.value), false)
    ensures create.Success? && refresh.Failure? ==>
              r == Submitted(Initial().(status := "Created Channel Successfully"), Some(Body(f)), user, None, true)
  {
    var started := Started(f);
    match create
    case Failure(_) => Submitted(started.(isUploading := false), Some(Body(f)), user, None, true)
    case Success(id) =>
      var created := Created(started);
      match refresh
      case Success(u) =>
        Submitted(created.(isUploading := false), Some(Body(f)), UserSlice.Add(user, u), Some("/channel/" + id), false)
      case Failure(_) =>
        Submitted(created.(isUploading := false), Some(Body(f)), user, None, true)
  }

  /** The handler with the `catch` block completing: the status shows the
      server's message or "Upload failed. Try again." and progress is cleared. */
  function SubmitFixed(f: Form, user: UserSlice.State, create: Outcome<string>,
                       refresh: Outcome<Option<Record>>): (r: Submitted)
    ensures r.body == Some(Body(f)) && !r.form.isUploading && !r.escaped && r.form.progress.None?
    ensures create.Failure? ==>
              && r.form == f.(status := FirstTruthy([create.error.serverMessage], "Upload failed. Try again."),
                              progress := None, isUploading := false)
              && r.user == user && r.navigate.None?
    ensures create.Success? && refresh.Failure? ==>
              && r.form == Initial().(status := FirstTruthy([refresh.error.serverMessage], "Upload failed. Try again."))
              && r.user == user && r.navigate.None?
    ensures create.Success? && refresh.Success? ==> r == Submit(f, user, create, refresh)
  {
    var started := Started(f);
    match create
    case Failure(e) =>
      Submitted(started.(status := FirstTruthy([e.serverMessage], "Upload failed. Try again."),
                         progress := None, isUploading := false), Some(Body(f)), user, None, false)
    case Success(id) =>
      var created := Created(started);
      match refresh
      case Success(u) =>
        Submitted(created.(isUploading := false), Some(Body(f)), UserSlice.Add(user, u), Some("/channel/" + id), false)
      case Failure(e) =>
        Submitted(created.(status := FirstTruthy([e.serverMessage], "Upload failed. Try again."), isUploading := false),
                  Some(Body(f)), user, None, false)
  }

  /** The browser's part of a submit: nothing happens while the button is
      disabled or while a `required` field (name, description) is empty. */
  predicate Blocked(f: Form) {
    f.isUploading || f.name == "" || f.description == ""
  }

  function FormSubmit(f: Form, user: UserSlice.State, create: Outcome<string>,
                      refresh: Outcome<Option<Record>>): (r: Submitted)
    ensures Blocked(f) ==> r == Submitted(f, None, user, None, false)
    ensures !Blocked(f) ==> r == Submit(f, user, create, refresh)
    ensures !Blocked(f) ==> r.body.Some? && !r.form.isUploading
  {
    if Blocked(f) then Submitted(f, None, user, None, false) else Submit(f, user, create, refresh)
  }

  /** `isUploading && typeof uploadProgress === "number"`. */
  predicate ProgressBarShown(f: Form) {
    f.isUploading && f.progress.Some?
  }

  /** The submit button's text. */
  function ButtonLabel(f: Form): (r: string)
    ensures f.isUploading <==> r == "Creating..."
    ensures !f.isUploading <==> r == "Create Channel"
  {
    if f.isUploading then "Creating..." else "Create Channel"
  }

  /** The status paragraph is drawn only for a non-empty message. */
  predicate StatusShown(f: Form) {
    f.status != ""
  }

  /** Green iff the message starts with "Created". */
  predicate StatusGreen(status: string) {
    "Created" <= status
  }

  /** A finished submit, whichever way it ended, hides the progress bar and
      re-enables the button. */
  lemma SubmitSettles(f: Form, user: UserSlice.State, create: Outcome<string>, refresh: Outcome<Option<Record>>)
    ensures !ProgressBarShown(Submit(f, user, create, refresh).form)
    ensures ButtonLabel(Submit(f, user, create, refresh).form) == "Create Channel"
    ensures !ProgressBarShown(SubmitFixed(f, user, create, refresh).form)
  {
  }

  /** A created channel is announced in green, the refreshed user is stored
      and the page moves to the new channel. */
  lemma CreatedShownGreen(f: Form, user: UserSlice.State, id: string, u: Option<Record>)
    ensures var r := Submit(f, user, Success(id), Success(u));
            StatusShown(r.form) && StatusGreen(r.form.status)
            && r.user.user == u && r.navigate == Some("/channel/" + id)
  {
    assert "Created Channel Successfully"[..7] == "Created";
  }

  /** As written, a rejected create leaves no status line at all: the message
      is never set, the progress keeps its last value and the error escapes. */
  lemma FailureShowsNothing(f: Form, user: UserSlice.State, e: RequestError, refresh: Outcome<Option<Record>>)
    ensures var r := Submit(f, user, Failure(e), refresh);
            !StatusShown(r.form) && r.form.progress == f.progress && r.escaped && r.navigate.None?
  {
  }

  /** With the fix a rejected create always shows a message, and in red
      unless the server's own text starts with "Created". */
  lemma FixedFailureShown(f: Form, user: UserSlice.State, e: RequestError, refresh: Outcome<Option<Record>>)
    ensures var r := SubmitFixed(f, user, Failure(e), refresh);
            StatusShown(r.form)
            && (!Truthy(e.serverMessage) ==> !StatusGreen(r.form.status))
  {
    assert "Upload failed. Try again."[0] != "Created"[0];
  }

  /** On a failed create the fix differs from the handler as written only in
      the status, the progress and the escaping error. */
  lemma FixedAgreesOnFailureFields(f: Form, user: UserSlice.State, e: RequestError, refresh: Outcome<Option<Record>>)
    ensures var a := Submit(f, user, Failure(e), refresh);
            var b := SubmitFixed(f, user, Failure(e), refresh);
            a.form.(status := b.form.status, progress := None) == b.form
            && a.user == b.user && a.navigate == b.navigate && a.body == b.body
  {
  }
}
