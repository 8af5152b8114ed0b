/**
 The watch page: fetching the video, the view registration, the like and
 dislike counts, the collapsible description and the tag line.
 */
module VideoPage {
  import opened Outcomes
  import opened Text
  import opened Lists
  import opened Records
  import opened Entities

  datatype State = State(detail: Option<Video>, errorMessage: string, showFullDesc: bool)

  function Initial(): (s: State)
    ensures s.detail.None? && s.errorMessage == "" && !s.showFullDesc
  {
    State(None, "", false)
  }

  /** `GET /video/:id`: the video on success; on failure the server's message,
      else "Unable to fetch video". */
  function Fetched(s: State, outcome: Outcome<Video>): (r: State)
    ensures outcome.Success? ==> r == s.(detail := Some(outcome.value))
    ensures outcome.Failure? ==> r.detail == s.detail && r.errorMessage != ""
    ensures outcome.Failure? && Truthy(outcome.error.serverMessage) ==>
              r.errorMessage == outcome.error.serverMessage.value
    ensures outcome.Failure? && !Truthy(outcome.error.serverMessage) ==> r.errorMessage == "Unable to fetch video"
    ensures outcome.Failure? ==>
              r == s.(errorMessage := FirstTruthy([outcome.error.serverMessage], "Unable to fetch video"))
  {
    match outcome
    case Success(v) => s.(detail := Some(v))
    case Failure(e) => s.(errorMessage := FirstTruthy([e.serverMessage], "Unable to fetch video"))
  }

  datatype View = ErrorView(message: string) | LoadingView | PageView(video: Video)

  /** The error text wins over the loading state, which wins over the page. */
  function Render(s: State): (v: View)
    ensures s.errorMessage != "" ==> v == ErrorView(s.errorMessage)
    ensures s.errorMessage == "" ==> (v.LoadingView? <==> s.detail.None?)
    ensures v.PageView? ==> s.detail == Some(v.video)
  {
    if s.errorMessage != "" then ErrorView(s.errorMessage)
    else if s.detail.None? then LoadingView
    else PageView(s.detail.value)
  }

  /** A failed fetch keeps the page on its error. */
  lemma FailureShowsError(s: State, e: RequestError)
    ensures Render(Fetched(s, Failure(e))).ErrorView?
  {
  }

  /** `PUT /video/:id/view` is sent only with a logged-in user and a fetched
      video whose id is truthy; the result is the path requested. */
  function ViewRequest(user: Option<Record>, detail: Option<Video>): (r: Option<string>)
    ensures r.Some? <==> user.Some? && detail.Some? && detail.value.id != ""
    ensures r.Some? ==> r.value == "/video/" + detail.value.id + "/view"
  {
    if user.Some? && detail.Some? && detail.value.id != "" then Some("/video/" + detail.value.id + "/view")
    else None
  }

  /** Logged-out visitors never add a view. */
  lemma NoViewWhenLoggedOut(detail: Option<Video>)
    ensures ViewRequest(None, detail).None?
  {
  }

  /** `likes?.length || 0` and `dislikes?.length || 0`. */
  function Count(ids: Option<seq<string>>): (n: nat)
    ensures ids.None? ==> n == 0
    ensures ids.Some? ==> n == |ids.value|
  {
    if ids.Some? then |ids.value| else 0
  }

  /** `title || "Untitled Video"`. */
  function DisplayTitle(v: Video): (t: string)
    ensures t != ""
    ensures v.title != "" ==> t == v.title
  {
    if v.title != "" then v.title else "Untitled Video"
  }

  /** The description as shown: whole when expanded, else its first 150
      characters. */
  function ShownDescription(desc: string, full: bool): (r: string)
    ensures full ==> r == desc
    ensures !full ==> r <= desc && |r| == (if |desc| < 150 then |desc| else 150)
  {
    if full then desc else Take(desc, 150)
  }

  /** "Show more"/"Show less" is drawn only for descriptions over 150 characters. */
  predicate HasToggle(desc: string) {
    |desc| > 150
  }

  /** Without the toggle nothing is hidden; with it the collapsed text is a
      strict prefix. */
  lemma ToggleIffTruncated(desc: string)
    ensures !HasToggle(desc) <==> ShownDescription(desc, false) == desc
    ensures HasToggle(desc) ==> |ShownDescription(desc, false)| == 150
  {
  }

  /** The toggle flips the expanded flag and nothing else. */
  function ToggleDescription(s: State): (r: State)
    ensures r.showFullDesc == !s.showFullDesc && r.detail == s.detail && r.errorMessage == s.errorMessage
  {
    s.(showFullDesc := !s.showFullDesc)
  }

  lemma ToggleTwice(s: State)
    ensures ToggleDescription(ToggleDescription(s)) == s
  {
  }

  /** `tag && tag.trim() !== ""`. */
  predicate NotBlank(tag: string) {
    !IsBlank(tag)
  }

  /** The tags the line shows: the first two that are not blank, untrimmed. */
  function ShownTags(tags: seq<string>): (r: seq<string>)
    ensures |r| <= 2
    ensures r <= Filter(tags, NotBlank)
    ensures |r| == if CountIf(tags, NotBlank) < 2 then CountIf(tags, NotBlank) else 2
    ensures forall t :: t in r ==> t in tags && !AllSpace(t)
    ensures IsSubsequence(r, tags)
  {
    var kept := Filter(tags, NotBlank);
    var r := Take(kept, 2);
    ShownTagsSub(kept, r, tags);
    assert forall t :: t in r ==> t in kept;
    r
  }

  lemma ShownTagsSub(kept: seq<string>, r: seq<string>, tags: seq<string>)
    requires IsSubsequence(kept, tags) && r <= kept
    ensures IsSubsequence(r, tags)
  {
    PrefixOfSubsequence(r, kept, tags);
  }

  /** `#tag`. */
  function Hash(tag: string): string {
    "#" + tag
  }

  /** The tag line: the shown tags, each behind `#`, joined by single spaces. */
  function TagLine(tags: seq<string>): string {
    Join(Map(ShownTags(tags), Hash), " ")
  }

  /** The line drawn under the description, spelled out by how many tags
      survive. */
  lemma TagLineShape(tags: seq<string>)
    ensures var k := ShownTags(tags);
            && (|k| == 0 ==> TagLine(tags) == "")
            && (|k| == 1 ==> TagLine(tags) == "#" + k[0])
            && (|k| == 2 ==> TagLine(tags) == "#" + k[0] + " #" + k[1])
  {
    HashLine(ShownTags(tags));
  }

  lemma HashLine(k: seq<string>)
    requires |k| <= 2
    ensures |k| == 0 ==> Join(Map(k, Hash), " ") == ""
    ensures |k| == 1 ==> Join(Map(k, Hash), " ") == "#" + k[0]
    ensures |k| == 2 ==> Join(Map(k, Hash), " ") == "#" + k[0] + " #" + k[1]
  {
    var m := Map(k, Hash);
    if |k| == 2 {
      assert m[1..] == [m[1]];
      assert Join(m, " ") == m[0] + " " + m[1];
    }
  }

  /** Example: kept tags are printed exactly as stored, surrounding
      whitespace included; the trim only decides whether a tag is blank. */
  lemma TagsNotTrimmed(a: string, blank: string, b: string)
    requires NotBlank(a) && AllSpace(blank) && NotBlank(b)
    ensures TagLine([a, blank, b]) == "#" + a + " #" + b
  {
    assert !NotBlank(blank);
    KeptAroundBlank(a, blank, b);
    assert ShownTags([a, blank, b]) == [a, b];
    HashLine([a, b]);
  }

  lemma KeptAroundBlank(a: string, blank: string, b: string)
    requires NotBlank(a) && !NotBlank(blank) && NotBlank(b)
    ensures Filter([a, blank, b], NotBlank) == [a, b]
  {
    FilterTriple(a, blank, b, NotBlank);
    FilterPair(blank, b, NotBlank);
  }

  /** Example: of three tags that are not blank, only the first two are shown. */
  lemma OnlyFirstTwo(a: string, b: string, c: string)
    requires NotBlank(a) && NotBlank(b) && NotBlank(c)
    ensures TagLine([a, b, c]) == "#" + a + " #" + b
  {
    KeptAllThree(a, b, c);
    assert Take([a, b, c], 2) == [a, b];
    assert ShownTags([a, b, c]) == [a, b];
    HashLine([a, b]);
  }

  lemma KeptAllThree(a: string, b: string, c: string)
    requires NotBlank(a) && NotBlank(b) && NotBlank(c)
    ensures Filter([a, b, c], NotBlank) == [a, b, c]
  {
    FilterTriple(a, b, c, NotBlank);
    FilterPair(b, c, NotBlank);
  }

  /** The line is drawn when the video has a non-empty `tags` array, even if
      every tag in it is blank. */
  predicate TagLineDrawn(tags: Option<seq<string>>) {
    tags.Some? && |tags.value| > 0
  }

  lemma BlankTagsDrawEmptyLine(blank: string)
    requires AllSpace(blank)
    ensures TagLineDrawn(Some([blank])) && TagLine([blank]) == ""
  {
    FilterCons(blank, [], NotBlank);
    assert [blank] == [blank] + [];
  }
}
