/**
 The category chips above the home feed: "All" followed by the server's top
 tags, one chip selected, and each click forwarded to the feed.
 */
module CategoriesBar {
  import opened Outcomes
  import HomePage

  datatype State = State(categories: seq<string>, selected: string)

  /** No chips until the tags arrive; "All" is selected from the start. */
  function Initial(): (s: State)
    ensures s.categories == [] && s.selected == "All"
  {
    State([], "All")
  }

  /** `GET /video/tags/top`: "All" then the tags in server order; a failure
      is only logged. */
  function Fetched(s: State, outcome: Outcome<seq<string>>): (r: State)
    ensures r.selected == s.selected
    ensures outcome.Success? ==>
              && |r.categories| == |outcome.value| + 1
              && r.categories[0] == "All"
              && r.categories[1..] == outcome.value
    ensures outcome.Failure? ==> r == s
  {
    match outcome
    case Success(tags) => s.(categories := ["All"] + tags)
    case Failure(_) => s
  }

  /** What a click leaves: the state and the category handed to
      `onSelectCategory`, when the parent passed one. */
  datatype Clicked = Clicked(state: State, forwarded: Option<string>)

  /** `handleClick(category)`. */
  function Click(s: State, category: string, hasCallback: bool): (r: Clicked)
    ensures r.state.selected == category && r.state.categories == s.categories
    ensures r.forwarded.Some? <==> hasCallback
    ensures r.forwarded.Some? ==> r.forwarded.value == category
  {
    Clicked(s.(selected := category), if hasCallback then Some(category) else None)
  }

  /** A chip is highlighted when its text equals the selection. */
  predicate Highlighted(s: State, i: int)
    requires 0 <= i < |s.categories|
  {
    s.categories[i] == s.selected
  }

  /** After a click the highlighted chips are exactly those with the clicked
      text (one, unless the server repeats a tag or sends "All"). */
  lemma ClickHighlights(s: State, i: nat, hasCallback: bool)
    requires i < |s.categories|
    ensures var r := Click(s, s.categories[i], hasCallback).state;
            forall j :: 0 <= j < |r.categories| ==> (Highlighted(r, j) <==> r.categories[j] == s.categories[i])
  {
  }

  /** Example, a case of `Click`'s contract: the chips never lose "All" at
      the front once loaded, whatever is clicked. */
  lemma AllStaysFirst(s: State, tags: seq<string>, category: string, hasCallback: bool)
    ensures Click(Fetched(s, Success(tags)), category, hasCallback).state.categories[0] == "All"
  {
  }

  /** Example, a case of `Click` and `HomePage.CategoryEndpoint`: clicking
      "All" on the home feed asks for the same list as its first load. */
  lemma AllRequestsFullFeed(s: State)
    ensures var c := Click(s, "All", true);
            c.forwarded == Some("All") && HomePage.CategoryEndpoint(c.forwarded.value) == "/video"
  {
  }
}
