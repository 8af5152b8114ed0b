/**
 The upload page: the redirect guard, the submit handler with its
 validation, the multipart request it builds, what success and failure
 leave in the form, the submit button and the status line.

 `Submit` is the handler as written; `SubmitFixed` is the same handler with
 `isUploading` reset on the two early returns, and `StatusGreenFixed` the
 status colour keyed to this page's own success text.
 */
module UploadVideo {
  import opened Outcomes
  import opened Text
  import opened Lists
  import opened Records

  datatype Form = Form(
    title: string,
    description: string,
    tag1: string,
    tag2: string,
    /** The chosen file, by name. */
    file: Option<string>,
    progress: Option<nat>,
    isUploading: bool,
    status: string)

  function Initial(): (f: Form)
    ensures f.title == "" && f.description == "" && f.tag1 == "" && f.tag2 == ""
    ensures f.file.None? && f.progress.None? && !f.isUploading && f.status == ""
  {
    Form("", "", "", "", None, None, false, "")
  }

  /** The guard effect: logged-out users go to `/login`, users whose
      `channel` field is not truthy go to `/createChannel`. */
  function Redirect(user: Option<Record>): (r: Option<string>)
    ensures user.None? ==> r == Some("/login")
    ensures user.Some? && !FieldTruthy(Get(user, "channel")) ==> r == Some("/createChannel")
    ensures user.Some? && FieldTruthy(Get(user, "channel")) ==> r.None?
  {
    if user.None? then Some("/login")
    else if !FieldTruthy(Get(user, "channel")) then Some("/createChannel")
    else None
  }

  /** A user record whose `channel` is a non-empty id may stay. */
  lemma ChannelOwnerStays(user: Record, id: string)
    requires "channel" in user && user["channel"] == Str(id) && id != ""
    ensures Redirect(Some(user)).None?
  {
  }

  /** The multipart body: trimmed title and description, the file, and the
      two tag inputs exactly as typed. */
  datatype UploadRequest = UploadRequest(title: string, description: string, file: string, tags: seq<string>)

  predicate NonEmpty(t: string) {
    |t| > 0
  }

  /** The `tags` the handler computes: both inputs trimmed, empty ones
      dropped. The request does not use it. */
  function ComputedTags(tag1: string, tag2: string): (r: seq<string>)
    ensures |r| <= 2
    ensures forall t :: t in r ==> t != "" && IsTrimmed(t)
  {
    FilterPair(Trim(tag1), Trim(tag2), NonEmpty);
    Filter([Trim(tag1), Trim(tag2)], NonEmpty)
  }

  /** What a submit leaves: the form, the request (if one was sent) and where
      it navigated. */
  datatype Submitted = Submitted(form: Form, request: Option<UploadRequest>, navigate: Option<string>)

  predicate Incomplete(f: Form) {
    IsBlank(f.title) || IsBlank(f.description) || f.file.None?
  }

  /** The request a complete form sends. */
  function RequestOf(f: Form): (r: UploadRequest)
    requires f.file.Some?
    ensures r.title == Trim(f.title) && r.description == Trim(f.description)
    ensures r.file == f.file.value && r.tags == [f.tag1, f.tag2]
  {
    UploadRequest(Trim(f.title), Trim(f.description), f.file.value, [f.tag1, f.tag2])
  }

  /** `handleSubmit` as written. It raises `isUploading` and clears the
      status first, then returns early, with `isUploading` still raised,
      when the trimmed title or description is empty or no file is chosen. */
  function Submit(f: Form, outcome: Outcome<()>): (r: Submitted)
    ensures Incomplete(f) ==> r == Submitted(f.(isUploading := true, status := ""), None, None)
    ensures !Incomplete(f) ==> r.request == Some(RequestOf(f)) && !r.form.isUploading && r.form.progress.None?
    ensures !Incomplete(f) && outcome.Success? ==>
              && r.form == Initial().(status := "Video Uploaded Successfully")
              && r.navigate == Some("/")
    ensures !Incomplete(f) && outcome.Failure? ==>
              && r.form == f.(status := FirstTruthy([outcome.error.serverMessage], "Upload failed. Try again."),
                              progress := None, isUploading := false)
              && r.navigate.None?
  {
    var started := f.(isUploading := true, status := "");
    if Incomplete(f) then Submitted(started, None, None)
    else
      var req := RequestOf(f);
      match outcome
      case Success(_) =>
        Submitted(Form("", "", "", "", None, None, false, "Video Uploaded Successfully"), Some(req), Some("/"))
      case Failure(e) =>
        Submitted(started.(status := FirstTruthy([e.serverMessage], "Upload failed. Try again."),
                           progress := None, isUploading := false), Some(req), None)
  }

  /** The browser's part of a submit: nothing happens while the button is
      disabled (`disabled={isUploading}`) or while a `required` input
      (title, description) is empty; otherwise the handler runs. */
  function FormSubmit(f: Form, outcome: Outcome<()>): (r: Submitted)
    ensures f.isUploading || f.title == "" || f.description == "" ==> r == Submitted(f, None, None)
    ensures !(f.isUploading || f.title == "" || f.description == "") ==> r == Submit(f, outcome)
  {
    if f.isUploading || f.title == "" || f.description == "" then Submitted(f, None, None)
    else Submit(f, outcome)
  }

  /** The raw tag inputs are sent, not the cleaned ones: a padded tag goes
      out with its padding, and an empty slot goes out as `""`, though
      neither is among the computed tags. */
  lemma RawTagsSent(f: Form, outcome: Outcome<()>)
    requires !Incomplete(f)
    ensures Submit(f, outcome).request.value.tags == [f.tag1, f.tag2]
    ensures !IsTrimmed(f.tag1) ==> f.tag1 !in ComputedTags(f.tag1, f.tag2)
    ensures f.tag2 == "" ==> "" !in ComputedTags(f.tag1, f.tag2)
  {
  }

  /** A whitespace-only title gets past the browser's `required` check and
      is refused by the handler, which leaves the button disabled; from then
      on no submit does anything, whatever the network would answer. */
  lemma StuckAfterBlankTitle(f: Form, o1: Outcome<()>, o2: Outcome<()>)
    requires !f.isUploading && f.title == " " && f.description != ""
    ensures var after := FormSubmit(f, o1);
            after.request.None? && after.form.isUploading
            && FormSubmit(after.form, o2) == Submitted(after.form, None, None)
  {
    assert IsBlank(" ") by { assert IsSpace(" "[0]); }
  }

  /** The same with no file chosen: the file input is not `required`. */
  lemma StuckWithoutFile(f: Form, o1: Outcome<()>, o2: Outcome<()>)
    requires !f.isUploading && f.title != "" && f.description != "" && f.file.None?
    ensures var after := FormSubmit(f, o1);
            after.request.None? && after.form.isUploading
            && FormSubmit(after.form, o2) == Submitted(after.form, None, None)
  {
  }

  /** `handleSubmit` with `isUploading` lowered again on the early returns. */
  function SubmitFixed(f: Form, outcome: Outcome<()>): (r: Submitted)
    ensures !r.form.isUploading
    ensures Incomplete(f) ==> r == Submitted(f.(isUploading := false, status := ""), None, None)
    ensures !Incomplete(f) ==> r == Submit(f, outcome)
  {
    if Incomplete(f) then Submitted(f.(isUploading := false, status := ""), None, None)
    else Submit(f, outcome)
  }

  function FormSubmitFixed(f: Form, outcome: Outcome<()>): (r: Submitted)
    ensures f.isUploading || f.title == "" || f.description == "" ==> r == Submitted(f, None, None)
    ensures !(f.isUploading || f.title == "" || f.description == "") ==> r == SubmitFixed(f, outcome)
  {
    if f.isUploading || f.title == "" || f.description == "" then Submitted(f, None, None)
    else SubmitFixed(f, outcome)
  }

  /** With the fix a refused submit can be corrected and retried: once a
      file is chosen, the next submit sends the request. */
  lemma FixedAllowsRetry(f: Form, o1: Outcome<()>, o2: Outcome<()>, file: string)
    requires !f.isUploading && f.title != "" && f.description != "" && f.file.None?
    requires !IsBlank(f.title) && !IsBlank(f.description)
    ensures var after := FormSubmitFixed(f, o1).form.(file := Some(file));
            FormSubmitFixed(after, o2).request.Some?
  {
    var after := FormSubmitFixed(f, o1).form.(file := Some(file));
    assert after.title == f.title && after.description == f.description;
  }

  /** A progress event: the rounded percentage is stored (the rounding of
      `loaded * 100 / total` is not modelled). */
  function Progress(f: Form, percent: nat): (r: Form)
    ensures r.progress == Some(percent) && r.(progress := f.progress) == f
  {
    f.(progress := Some(percent))
  }

  /** The submit button's text. */
  function ButtonLabel(f: Form): (r: string)
    ensures f.isUploading && f.progress.Some? ==> r == "Uploading... " + NatToDecimal(f.progress.value) + "%"
    ensures !(f.isUploading && f.progress.Some?) ==> r == "Submit"
  {
    if f.isUploading && f.progress.Some? then "Uploading... " + NatToDecimal(f.progress.value) + "%"
    else "Submit"
  }

  /** After any finished request the button reads "Submit" again. */
  lemma LabelResetsAfterRequest(f: Form, outcome: Outcome<()>)
    requires !Incomplete(f)
    ensures ButtonLabel(Submit(f, outcome).form) == "Submit"
  {
  }

  /** The status line's colour as written: green iff the text starts with
      "Created". */
  predicate StatusGreen(status: string) {
    "Created" <= status
  }

  /** The colour computed for this page's own success text is red (the
      navigation home follows in the same continuation). */
  lemma SuccessShownRed(f: Form)
    requires !Incomplete(f)
    ensures Submit(f, Success(())).form.status == "Video Uploaded Successfully"
    ensures !StatusGreen(Submit(f, Success(())).form.status)
  {
    assert "Video Uploaded Successfully"[0] != "Created"[0];
  }

  /** The colour keyed to this page's success text. */
  predicate StatusGreenFixed(status: string) {
    status == "Video Uploaded Successfully"
  }

  /** With the fix a successful upload is green, and a failure is red unless
      the server's message is the success text itself. */
  lemma FixedColours(f: Form, e: RequestError)
    requires !Incomplete(f)
    requires e.serverMessage != Some("Video Uploaded Successfully")
    ensures StatusGreenFixed(Submit(f, Success(())).form.status)
    ensures !StatusGreenFixed(Submit(f, Failure(e)).form.status)
  {
    var msg := FirstTruthy([e.serverMessage], "Upload failed. Try again.");
    assert Submit(f, Failure(e)).form.status == msg;
    assert |"Upload failed. Try again."| != |"Video Uploaded Successfully"|;
    assert msg != "Video Uploaded Successfully";
  }
}
