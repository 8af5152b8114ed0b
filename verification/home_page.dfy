/**
 The home feed: the first load, the category switch, the search filter over
 the loaded videos and which of loading, error, grid or empty message shows.
 */
module HomePage {
  import opened Outcomes
  import opened Text
  import opened Lists
  import opened Entities

  datatype State = State(videos: seq<Video>, isLoading: bool, error: Option<string>)

  function Initial(): (s: State)
    ensures s.videos == [] && s.isLoading && s.error.None?
  {
    State([], true, None)
  }

  /** The first `GET /video`: the list on success, a fixed message on
      failure, and loading ends either way. */
  function Loaded(s: State, outcome: Outcome<seq<Video>>): (r: State)
    ensures !r.isLoading
    ensures outcome.Success? ==> r.videos == outcome.value && r.error == s.error
    ensures outcome.Failure? ==> r.videos == s.videos && r.error == Some("Failed to load the videos")
  {
    match outcome
    case Success(vs) => s.(videos := vs, isLoading := false)
    case Failure(_) => s.(isLoading := false, error := Some("Failed to load the videos"))
  }

  /** The path `handleCategorySelect` requests. */
  function CategoryEndpoint(category: string): (path: string)
    ensures category == "All" ==> path == "/video"
    ensures category != "All" ==> path == "/video/tags/" + category
  {
    if category == "All" then "/video" else "/video/tags/" + category
  }

  /** The category can be read back from the path, and only "All" maps to
      the unfiltered feed. */
  lemma EndpointDeterminesCategory(a: string, b: string)
    requires CategoryEndpoint(a) == CategoryEndpoint(b)
    ensures a == b
  {
    var pre := "/video/tags/";
    if a != "All" && b != "All" {
      assert a == CategoryEndpoint(a)[|pre|..];
      assert b == CategoryEndpoint(b)[|pre|..];
    }
  }

  /** A category switch: the requested list replaces the videos on success;
      a failure sets its own message, which then hides the page for good. */
  function CategorySelected(s: State, category: string, outcome: Outcome<seq<Video>>): (r: State)
    ensures r.isLoading == s.isLoading
    ensures outcome.Success? ==> r.videos == outcome.value && r.error == s.error
    ensures outcome.Failure? ==> r.videos == s.videos && r.error == Some("Failed to fetch category videos")
  {
    match outcome
    case Success(vs) => s.(videos := vs)
    case Failure(_) => s.(error := Some("Failed to fetch category videos"))
  }

  /** `video.title.toLowerCase().includes(search.toLowerCase())`. */
  predicate Matches(search: string, v: Video) {
    Contains(ToLower(v.title), ToLower(search))
  }

  /** `filteredVideos`. */
  function Filtered(videos: seq<Video>, search: string): (r: seq<Video>)
    ensures IsSubsequence(r, videos)
    ensures |r| == CountIf(videos, v => Matches(search, v))
    ensures forall v :: v in r <==> v in videos && Matches(search, v)
  {
    Filter(videos, v => Matches(search, v))
  }

  /** A video is kept exactly when its lower-cased title has the lower-cased
      search at some position. */
  lemma KeptIffTitleHasSearch(videos: seq<Video>, search: string, v: Video)
    requires v in videos
    ensures v in Filtered(videos, search) <==>
              exists i :: OccursAt(ToLower(v.title), ToLower(search), i)
  {
    ContainsIff(ToLower(v.title), ToLower(search));
  }

  /** With no search text every video is shown, in order. */
  lemma EmptySearchKeepsAll(videos: seq<Video>)
    ensures Filtered(videos, "") == videos
  {
    assert ToLower("") == "";
    forall i | 0 <= i < |videos| ensures Matches("", videos[i]) {
      ContainsEmpty(ToLower(videos[i].title));
    }
    FilterAll(videos, v => Matches("", v));
  }

  /** The search ignores the case of the query. */
  lemma SearchIgnoresCase(videos: seq<Video>, search: string)
    ensures Filtered(videos, ToLower(search)) == Filtered(videos, search)
  {
    ToLowerIdempotent(search);
    FilterCongruent(videos, v => Matches(ToLower(search), v), v => Matches(search, v));
  }

  /** Example: "cat" keeps "Cats" and "Catalog" and drops "Dogs". */
  lemma CatExample(a: Video, b: Video, c: Video)
    requires a.title == "Cats" && b.title == "Dogs" && c.title == "Catalog"
    ensures Filtered([a, b, c], "cat") == [a, c]
  {
    assert ToLower("cat") == "cat";
    assert ToLower("Cats") == "cats";
    assert ToLower("Dogs") == "dogs";
    assert ToLower("Catalog") == "catalog";
    assert Matches("cat", a) by { assert "cat" <= "cats"; }
    assert !Matches("cat", b) by { NoCatInDogs(); }
    assert Matches("cat", c) by { assert "cat" <= "catalog"; }
    var xs := [a, b, c];
    assert xs[1..] == [b, c] && xs[1..][1..] == [c] && xs[1..][1..][1..] == [];
  }

  /** Example: "dogs" does not include "cat". */
  lemma NoCatInDogs()
    ensures !Contains("dogs", "cat")
  {
    ShortNeverContains("gs", "cat");
    assert "ogs"[1..] == "gs" && "ogs"[0] != "cat"[0];
    assert "dogs"[1..] == "ogs" && "dogs"[0] != "cat"[0];
  }

  /** What the page shows. */
  datatype View = LoadingView | ErrorView(message: string) | Grid(videos: seq<Video>) | NoMatch(message: string)

  /** Loading first, then a truthy error, then the filtered grid, or the
      "No videos found" line when nothing matches. */
  function Render(s: State, search: string): (v: View)
    ensures s.isLoading ==> v == LoadingView
    ensures !s.isLoading && Truthy(s.error) ==> v == ErrorView(s.error.value)
    ensures !s.isLoading && !Truthy(s.error) ==>
              (v.Grid? <==> Filtered(s.videos, search) != [])
    ensures v.Grid? ==> v.videos == Filtered(s.videos, search)
    ensures v.NoMatch? ==> v.message == "No videos found matching \"" + search + "\""
  {
    if s.isLoading then LoadingView
    else if Truthy(s.error) then ErrorView(s.error.value)
    else
      var shown := Filtered(s.videos, search);
      if |shown| > 0 then Grid(shown) else NoMatch("No videos found matching \"" + search + "\"")
  }

  /** A failed category switch leaves the error on screen whatever is
      fetched afterwards. */
  lemma CategoryFailureSticks(s: State, a: string, b: string, e: RequestError, vs: seq<Video>, search: string)
    requires !s.isLoading
    ensures Render(CategorySelected(CategorySelected(s, a, Failure(e)), b, Success(vs)), search)
            == ErrorView("Failed to fetch category videos")
  {
  }
}
