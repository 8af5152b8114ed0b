/**
 The edit dialog of a video: a title, a description and two tag slots,
 submitted as one update request.
 */
module EditVideo {
  import opened Outcomes
  import opened Text
  import opened Lists
  import opened Entities

  datatype Form = Form(title: string, description: string, tags: seq<string>, loading: bool, error: string)

  /** The form keeps exactly two tag slots. */
  predicate Valid(f: Form) {
    |f.tags| == 2
  }

  /** The body of `PUT /video/:id`. */
  datatype UpdateRequest = UpdateRequest(videoId: string, title: string, description: string, tags: seq<string>)

  /** What a finished submit leaves: the form, the entry handed to `onUpdate`
      (if it was called) and whether `onClose` was called. */
  datatype Submitted = Submitted(form: Form, updated: Option<Video>, closed: bool)

  /** The initial state for a video: its fields, missing tags as empty slots. */
  function Open(v: Video): (f: Form)
    ensures Valid(f)
    ensures f.title == v.title && f.description == v.description
    ensures f.tags[0] == (if |v.tags| > 0 then v.tags[0] else "")
    ensures f.tags[1] == (if |v.tags| > 1 then v.tags[1] else "")
    ensures !f.loading && f.error == ""
  {
    var t := v.tags;
    Form(v.title, v.description,
         [if |t| > 0 then t[0] else "", if |t| > 1 then t[1] else ""],
         false, "")
  }

  /** Typing into one tag slot. */
  function SetTag(f: Form, slot: nat, text: string): (r: Form)
    requires Valid(f) && slot < 2
    ensures Valid(r)
    ensures r.tags[slot] == text && r.tags[1 - slot] == f.tags[1 - slot]
    ensures r.title == f.title && r.description == f.description
  {
    f.(tags := f.tags[slot := text])
  }

  predicate NonEmpty(s: string) {
    s != ""
  }

  /** `[...new Set(tags.map(t => t.trim()).filter(Boolean))].slice(0, 2)`. */
  function CleanedTags(tags: seq<string>): (r: seq<string>)
    ensures |r| <= 2
    ensures forall t :: t in r ==> t != "" && IsTrimmed(t)
    ensures NoDuplicates(r)
    ensures forall t :: t in r ==> t in Map(tags, Trim)
  {
    TrimmedAll(tags);
    TakeDedupeFilter(Map(tags, Trim), NonEmpty, 2);
    Take(Dedupe(Filter(Map(tags, Trim), NonEmpty)), 2)
  }

  lemma TrimmedAll(tags: seq<string>)
    ensures forall t :: t in Map(tags, Trim) ==> IsTrimmed(t)
  {
    var m := Map(tags, Trim);
    forall t | t in m ensures IsTrimmed(t) {
      var i :| 0 <= i < |m| && m[i] == t;
    }
  }

  /** The two-slot case in full: blank slots are dropped, and two slots that
      trim to the same text give a single tag. */
  lemma CleanedTwoSlots(a: string, b: string)
    ensures var ta, tb := Trim(a), Trim(b);
      CleanedTags([a, b]) ==
        if ta == "" && tb == "" then []
        else if ta == "" then [tb]
        else if tb == "" || ta == tb then [ta]
        else [ta, tb]
  {
    var ta, tb := Trim(a), Trim(b);
    assert Map([a, b], Trim) == [ta, tb];
    CleanedTrimmedPair(ta, tb);
  }

  lemma CleanedTrimmedPair(ta: string, tb: string)
    ensures Take(Dedupe(Filter([ta, tb], NonEmpty)), 2) ==
        if ta == "" && tb == "" then []
        else if ta == "" then [tb]
        else if tb == "" || ta == tb then [ta]
        else [ta, tb]
  {
    FilterPair(ta, tb, NonEmpty);
    if ta != "" && tb != "" {
      assert Filter([ta, tb], NonEmpty) == [ta] + [tb] == [ta, tb];
      DedupePair(ta, tb);
    } else if ta != "" {
      assert Filter([ta, tb], NonEmpty) == [ta] + [];
      DedupeSingle(ta);
    } else if tb != "" {
      assert Filter([ta, tb], NonEmpty) == [] + [tb];
      DedupeSingle(tb);
    } else {
      assert Filter([ta, tb], NonEmpty) == [];
    }
  }

  /** `handleSubmit` up to the request: loading on, error cleared, and the
      request built from the trimmed fields and the cleaned tags. */
  function BeginSubmit(v: Video, f: Form): (r: (Form, UpdateRequest))
    ensures r.0 == f.(loading := true, error := "")
    ensures r.1.videoId == v.id
    ensures r.1.title == Trim(f.title) && r.1.description == Trim(f.description)
    ensures r.1.tags == CleanedTags(f.tags)
  {
    (f.(loading := true, error := ""),
     UpdateRequest(v.id, Trim(f.title), Trim(f.description), CleanedTags(f.tags)))
  }

  /** `handleSubmit` after the request: `onUpdate` and `onClose` only on
      success, the error text only on failure, loading off either way. */
  function FinishSubmit(f: Form, outcome: Outcome<Video>): (r: Submitted)
    ensures !r.form.loading
    ensures r.form.title == f.title && r.form.description == f.description && r.form.tags == f.tags
    ensures r.updated.Some? <==> outcome.Success?
    ensures r.closed <==> outcome.Success?
    ensures outcome.Success? ==> r.updated == Some(outcome.value) && r.form.error == f.error
    ensures outcome.Failure? ==>
              r.form.error == FirstTruthy([outcome.error.serverMessage], "Failed to update video")
  {
    match outcome
    case Success(video) => Submitted(f.(loading := false), Some(video), true)
    case Failure(e) =>
      Submitted(f.(loading := false, error := FirstTruthy([e.serverMessage], "Failed to update video")),
                None, false)
  }

  /** A failed save always shows some error text. */
  lemma FailureShowsError(f: Form, e: RequestError)
    ensures FinishSubmit(f, Failure(e)).form.error != ""
  {
  }
}
