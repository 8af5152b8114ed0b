/**
 The `search` slice: the home feed's search text, written by the header.
 */
module SearchSlice {
  import opened Outcomes
  import opened Text

  datatype State = State(value: string)

  /** The search starts empty. */
  function Initial(): (s: State)
    ensures s.value == ""
  {
    State("")
  }

  /** `setSearch(p)`: `p ?? ""`; only a missing payload becomes `""`. */
  function Set(s: State, payload: Option<string>): (r: State)
    ensures payload.Some? ==> r.value == payload.value
    ensures payload.None? ==> r.value == ""
  {
    State(if payload.Some? then payload.value else "")
  }

  /** `clearSearch()`: back to no search at all. */
  function Clear(s: State): (r: State)
    ensures !HasSearch(r)
    ensures r == Initial()
  {
    State("")
  }

  /** `selectSearch`: the stored text, untouched. */
  function Select(s: State): (r: string)
    ensures Set(s, Some(r)) == s
  {
    s.value
  }

  /** `selectHasSearch`: some non-whitespace character has been typed. */
  predicate HasSearch(s: State)
    ensures HasSearch(s) <==> !AllSpace(s.value)
  {
    |Trim(s.value)| > 0
  }

  lemma ClearIdempotent(s: State)
    ensures Clear(Clear(s)) == Clear(s)
  {
  }

  /** Whitespace-only text is stored as typed but counts as no search. */
  lemma SpacesAreNoSearch(s: State, text: string)
    requires AllSpace(text)
    ensures Select(Set(s, Some(text))) == text && !HasSearch(Set(s, Some(text)))
  {
  }
}
